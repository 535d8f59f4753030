/** Which SSL calls can follow which, and when the flags say what the SSL results said.

    Scripts may call back into I/O in the middle of another call. The driver does not guard against
    that, so the order of SSL calls is not safe in every run: `Careful` says for each event exactly
    when it is. */
module TlsTrace {
  import opened TlsTypes
  import opened TlsMachine
  import opened TlsFlags
  import opened TlsReports
  import opened TlsEarly

  // ----- a trace of SSL calls judged by the SSL results alone

  /** OpenSSL reported a fatal error; an unexpected end of file while reading is not one. */
  predicate IsFatal(e: Entry) {
    e.Result? && (IsHardSyscall(e.o) || (e.o.rc.ErrorSsl? && !(e.op.Read? && e.o.unexpectedEof)))
  }

  /** OpenSSL reported that nothing more can be read. */
  predicate IsEnd(e: Entry) {
    e.Result? && (e.o.rc.ErrorSsl? || e.o.rc.ErrorSyscall? || e.o.rc.ZeroReturn?)
  }

  predicate Connected(t: Log<Entry>) {
    t.Then? && (Connected(t.earlier) || (t.last.Result? && t.last.op.Connect? && t.last.o.ret > 0))
  }

  predicate Failed(t: Log<Entry>) {
    t.Then? && (Failed(t.earlier) || IsFatal(t.last))
  }

  predicate Ended(t: Log<Entry>) {
    t.Then? && (Ended(t.earlier) || IsEnd(t.last))
  }

  predicate Permitted(t: Log<Entry>, op: Operation) {
    match op
    case Connect => !Connected(t) && !Failed(t)
    case Read => Connected(t) && !Failed(t) && !Ended(t)
    case Write => Connected(t) && !Failed(t)
    case Shutdown => Connected(t) && !Failed(t)
  }

  predicate WellFormed(t: Log<Entry>) {
    t.Then? ==> WellFormed(t.earlier) && (t.last.Call? ==> Permitted(t.earlier, t.last.op))
  }

  /** The flags say exactly what the trace says, up to the flags a failed call has still to set. */
  predicate FlagsAgree(w: World) {
    && Connected(w.trace) == !w.conn.init
    && Failed(w.trace) == (w.conn.fatal || WillFail(w.frames))
    && Ended(w.trace) == (w.conn.eof || WillEnd(w.frames))
  }

  predicate Good(w: World) {
    WellFormed(w.trace) && FlagsAgree(w)
  }

  // ----- when an event is safe

  /** An attempt of the handshake that is repeated or given up for now. */
  predicate CarefulRetry(w: World, o: Outcome) {
    && (IsEnd(Result(Connect, o)) ==> w.conn.eof || WillEnd(w.frames))
    && if w.conn.async
       then (o.ret > 0 ==> !w.conn.init) && (IsFatal(Result(Connect, o)) ==> w.conn.fatal || WillFail(w.frames))
       else o.ret <= 0 && !IsFatal(Result(Connect, o)) && w.conn.init && !w.conn.fatal && !WillFail(w.frames)
  }

  /** Tls_WaitForConnect has succeeded and its caller goes on to read or write. */
  predicate CarefulResume(w: World, caller: Caller) {
    match caller
    case ForInput(_) => !w.conn.fatal && !w.conn.eof && !WillFail(w.frames) && !WillEnd(w.frames)
    case ForOutput(buf) => buf == [] || (!w.conn.fatal && !WillFail(w.frames))
    case _ => true
  }

  /** What keeps the calls in order, in terms of the flags and of failed calls that have yet to set
      theirs. */
  predicate Careful(w: World, e: Event) {
    match e
    case Input(_) =>
      w.conn.callback || w.conn.fatal || w.conn.eof || (!WillFail(w.frames) && (w.conn.init || !WillEnd(w.frames)))
    case Output(buf) =>
      w.conn.callback || w.conn.fatal || (!w.conn.init && buf == []) || !WillFail(w.frames)
    case Notify(_) => w.conn.callback || !w.conn.init || w.conn.fatal || !WillFail(w.frames)
    case Handshake => !w.conn.init || w.conn.fatal || !WillFail(w.frames)
    case SslReturns(o, _) =>
      w.frames.Cons? && w.frames.top.WaitFrame? && Retryable(o) && (w.conn.async || w.frames.top.retries > 0) ==>
        CarefulRetry(w, o)
    case Resume =>
      w.frames.Cons? && w.frames.top.WaitDone? && w.frames.top.result > 0 ==> CarefulResume(w, w.frames.top.caller)
    case _ => true
  }

  lemma EntryIsGood(w: World, e: Event)
    requires e.Input? || e.Output? || e.Handshake?
    requires Good(w) && Enabled(w, e)
    ensures Good(Step(w, e)) <==> Careful(w, e)
  {}

  lemma NotifyIsGood(w: World, mask: Mask)
    requires Good(w) && Enabled(w, Notify(mask))
    ensures Good(Step(w, Notify(mask))) <==> Careful(w, Notify(mask))
  {
    DropTimerClears(w);
  }

  lemma CloseIsGood(w: World)
    requires Good(w) && Enabled(w, Close)
    ensures Good(Step(w, Close))
  {
    CloseSets(w);
    IdleStack(w.frames);
  }

  /** Steps that concern neither SSL nor its results. */
  lemma BystanderIsGood(w: World, w': World)
    requires Good(w)
    requires w'.trace == w.trace && w'.conn.init == w.conn.init && w'.conn.fatal == w.conn.fatal
    requires w'.conn.eof == w.conn.eof
    requires w'.frames == w.frames
             || (w'.frames.Cons? && !w'.frames.top.Settling? && w'.frames.below == w.frames)
             || (w.frames.Cons? && !w.frames.top.Settling? && w'.frames == w.frames.below)
    ensures Good(w')
  {}

  lemma TimerIsGood(w: World, e: Event)
    requires Good(w) && Enabled(w, e)
    requires e.Watch? || e.ShutdownReturns? || e.TimerFires? || e.TimerReturns? || e.CallbackReturns?
    ensures Good(Step(w, e))
  {
    match e {
      case Watch(mask) => WatchKeepsRest(w, mask);
      case ShutdownReturns => ShutdownSets(w);
      case TimerReturns => ReleaseKeepsRest(Pop(w).(conn := w.conn.(want := NO_EVENTS)));
      case CallbackReturns => ReleaseKeepsRest(Pop(w));
      case TimerFires(_, _, _) =>
    }
    BystanderIsGood(w, Step(w, e));
  }

  // ----- SSL results

  /** The verdict sets, now or after the report, exactly the flags the result calls for. */
  predicate Matches(w: World, r: Entry, v: Verdict) {
    && r.Result?
    && (v.connected <==> r.op.Connect? && r.o.ret > 0)
    && (v.fatal || (v.report.Some? && v.report.value.fatal) <==> IsFatal(r))
    && (v.eof || (v.report.Some? && v.report.value.eof) <==> IsEnd(r))
  }

  lemma JudgedIsGood(w: World, r: Entry, v: Verdict)
    requires w.frames.Cons? && !w.frames.top.Settling? && Good(w) && Matches(w, r, v)
    ensures Good(Judged(Traced(w, r), v))
  {
    JudgedIsTopOnly(Traced(w, r), v);
  }

  lemma RetryIsGood(w: World, o: Outcome)
    requires w.frames.Cons? && w.frames.top.WaitFrame? && Good(w)
    requires Retryable(o) && (w.conn.async || w.frames.top.retries > 0)
    ensures Good(WaitReturns(w, o)) <==> CarefulRetry(w, o)
  {
    var w', t := WaitReturns(w, o), Then(w.trace, Result(Connect, o));
    assert Ended(t) <==> Ended(w.trace) || IsEnd(t.last);
    assert Failed(t) <==> Failed(w.trace) || IsFatal(t.last);
    if w.conn.async {
      assert w'.trace == t;
    } else {
      assert w'.trace == Then(t, Call(Connect));
      assert Connected(w'.trace) == Connected(t) && Failed(w'.trace) == Failed(t) && Ended(w'.trace) == Ended(t);
      assert WellFormed(w'.trace) <==> Permitted(t, Connect);
    }
  }

  lemma ConnectIsGood(w: World, o: Outcome)
    requires w.frames.Cons? && w.frames.top.WaitFrame? && Good(w) && Genuine(o)
    ensures Good(WaitReturns(w, o)) <==> Careful(w, SslReturns(o, []))
  {
    if Retryable(o) && (w.conn.async || w.frames.top.retries > 0) {
      RetryIsGood(w, o);
    } else {
      JudgedIsGood(w.(conn := AfterAttempt(w.conn, o)), Result(Connect, o), WaitVerdict(o, w.frames.top.caller));
    }
  }

  lemma SslIsGood(w: World, o: Outcome, data: seq<byte>)
    requires Good(w) && Enabled(w, SslReturns(o, data))
    ensures Good(Step(w, SslReturns(o, data))) <==> Careful(w, SslReturns(o, data))
  {
    match w.frames.top
    case WaitFrame(_, _) => ConnectIsGood(w, o);
    case ReadFrame(_) => JudgedIsGood(w, Result(Read, o), ReadVerdict(o, data));
    case WriteFrame(buf) => JudgedIsGood(w, Result(Write, o), WriteVerdict(o, buf));
  }

  lemma SettleIsGood(w: World)
    requires w.frames.Cons? && w.frames.top.Settling? && Good(w)
    ensures Good(Settled(w))
  {}

  lemma ResumeIsGood(w: World)
    requires w.frames.Cons? && w.frames.top.WaitDone? && Good(w) && Reporting(w)
    ensures Good(Resumed(w)) <==> Careful(w, Resume)
  {
    assert Known(w.conn, w.frames.top);
  }

  /** One step keeps the calls in order and the flags in agreement exactly when it is careful. */
  lemma StepIsGood(w: World, e: Event)
    requires Good(w) && Reporting(w) && Enabled(w, e)
    ensures Good(Step(w, e)) <==> Careful(w, e)
  {
    match e
    case Input(_) => EntryIsGood(w, e);
    case Output(_) => EntryIsGood(w, e);
    case Handshake => EntryIsGood(w, e);
    case Notify(mask) => NotifyIsGood(w, mask);
    case Close => CloseIsGood(w);
    case SslReturns(o, data) => SslIsGood(w, o, data);
    case Settle => SettleIsGood(w);
    case Resume => ResumeIsGood(w);
    case BlockMode(_) => BystanderIsGood(w, Step(w, e));
    case CallbackEnters => BystanderIsGood(w, Step(w, e));
    case FlushReturns(_) =>
    case _ => TimerIsGood(w, e);
  }

  // ----- runs

  ghost predicate CarefulRun(w: World, es: seq<Event>)
    requires Legal(w, es)
    decreases |es|
  {
    es == [] || (Careful(w, es[0]) && CarefulRun(Step(w, es[0]), es[1..]))
  }

  ghost predicate GoodThroughout(w: World, es: seq<Event>)
    requires Legal(w, es)
    decreases |es|
  {
    Good(w) && (es == [] || GoodThroughout(Step(w, es[0]), es[1..]))
  }

  lemma {:induction false} CarefulIsGood(w: World, es: seq<Event>)
    requires Good(w) && Reporting(w) && Legal(w, es)
    ensures GoodThroughout(w, es) <==> CarefulRun(w, es)
    decreases |es|
  {
    if es == [] {
    } else {
      StepIsGood(w, es[0]);
      StepReports(w, es[0]);
      if Careful(w, es[0]) {
        CarefulIsGood(Step(w, es[0]), es[1..]);
      } else {
        BadStart(Step(w, es[0]), es[1..]);
      }
    }
  }

  lemma BadStart(w: World, es: seq<Event>)
    requires Legal(w, es) && !Good(w)
    ensures !GoodThroughout(w, es)
  {}

  lemma {:induction false} GoodAtTheEnd(w: World, es: seq<Event>)
    requires Legal(w, es) && GoodThroughout(w, es)
    ensures Good(Run(w, es))
    decreases |es|
  {
    if es == [] {
    } else {
      GoodAtTheEnd(Step(w, es[0]), es[1..]);
    }
  }

  // ----- main results

  /** For every run, re-entrant or not, with honest or dishonest retry flags: the SSL calls stay in
      order and the flags what the SSL results say all the way exactly when every event is careful. */
  lemma TraceIsWellFormed(nonblocking: bool, es: seq<Event>)
    requires Legal(Imported(nonblocking), es)
    ensures GoodThroughout(Imported(nonblocking), es) <==> CarefulRun(Imported(nonblocking), es)
    ensures var w := Run(Imported(nonblocking), es);
      CarefulRun(Imported(nonblocking), es) ==>
        && WellFormed(w.trace)
        && (w.conn.init <==> !Connected(w.trace))
        && (!Busy(w.frames) ==> w.conn.fatal == Failed(w.trace) && w.conn.eof == Ended(w.trace))
  {
    var w0 := Imported(nonblocking);
    CarefulIsGood(w0, es);
    var w := Run(w0, es);
    if CarefulRun(w0, es) {
      GoodAtTheEnd(w0, es);
      if !Busy(w.frames) {
        IdleStack(w.frames);
      }
    }
  }

  // ----- the order of calls alone

  /** OpenSSL's retry flag accompanies no handshake result that completes or fails the handshake. */
  predicate HonestHere(w: World, e: Event) {
    e.SslReturns? && w.frames.Cons? && w.frames.top.WaitFrame? ==> Honest(e.o)
  }

  ghost predicate HonestRun(w: World, es: seq<Event>)
    requires Legal(w, es)
    decreases |es|
  {
    es == [] || (HonestHere(w, es[0]) && HonestRun(Step(w, es[0]), es[1..]))
  }

  /** A step only adds to the trace. */
  predicate Extends(t: Log<Entry>, t': Log<Entry>) {
    t' == t || (t'.Then? && (t'.earlier == t || (t'.earlier.Then? && t'.earlier.earlier == t)))
  }

  lemma StepExtends(w: World, e: Event)
    requires Enabled(w, e)
    ensures Extends(w.trace, Step(w, e).trace)
  {
    match e
    case Watch(mask) => WatchKeepsRest(w, mask);
    case Notify(_) => DropTimerClears(w);
    case Close => CloseSets(w);
    case ShutdownReturns => ShutdownSets(w);
    case TimerReturns => ReleaseKeepsRest(Pop(w).(conn := w.conn.(want := NO_EVENTS)));
    case CallbackReturns => ReleaseKeepsRest(Pop(w));
    case SslReturns(o, data) => SslExtends(w, o, data);
    case _ =>
  }

  lemma SslExtends(w: World, o: Outcome, data: seq<byte>)
    requires Enabled(w, SslReturns(o, data))
    ensures Extends(w.trace, Step(w, SslReturns(o, data)).trace)
  {
    match w.frames.top
    case WaitFrame(_, _) =>
      var t := Then(w.trace, Result(Connect, o));
      assert WaitReturns(w, o).trace == t || WaitReturns(w, o).trace == Then(t, Call(Connect));
    case ReadFrame(_) => assert ReadReturns(w, o, data).trace == Then(w.trace, Result(Read, o));
    case WriteFrame(_) => assert WriteReturns(w, o).trace == Then(w.trace, Result(Write, o));
  }

  lemma {:induction false} DisorderStays(w: World, es: seq<Event>)
    requires Legal(w, es) && !WellFormed(w.trace)
    ensures !WellFormed(Run(w, es).trace)
    decreases |es|
  {
    if es == [] {
    } else {
      StepExtends(w, es[0]);
      DisorderStays(Step(w, es[0]), es[1..]);
    }
  }

  /** With an honest retry flag a careless event does not merely upset the flags: it makes an SSL call
      out of order. */
  lemma CarelessIsOutOfOrder(w: World, e: Event)
    requires Good(w) && Reporting(w) && Enabled(w, e) && HonestHere(w, e) && !Careful(w, e)
    ensures !WellFormed(Step(w, e).trace)
  {
    match e
    case Notify(_) => DropTimerClears(w);
    case SslReturns(o, _) => CarelessRetry(w, o);
    case Resume => assert Known(w.conn, w.frames.top);
    case _ =>
  }

  lemma CarelessRetry(w: World, o: Outcome)
    requires Good(w) && Genuine(o) && Honest(o) && !Careful(w, SslReturns(o, []))
    ensures !WellFormed(WaitReturns(w, o).trace)
  {
    var t := Then(w.trace, Result(Connect, o));
    assert WaitReturns(w, o).trace == Then(t, Call(Connect));
    assert !Permitted(t, Connect);
  }

  lemma {:induction false} OrderIsCare(w: World, es: seq<Event>)
    requires Good(w) && Reporting(w) && Legal(w, es) && HonestRun(w, es)
    ensures WellFormed(Run(w, es).trace) <==> CarefulRun(w, es)
    decreases |es|
  {
    if es == [] {
    } else {
      StepIsGood(w, es[0]);
      StepReports(w, es[0]);
      if Careful(w, es[0]) {
        OrderIsCare(Step(w, es[0]), es[1..]);
      } else {
        CarelessIsOutOfOrder(w, es[0]);
        DisorderStays(Step(w, es[0]), es[1..]);
      }
    }
  }

  /** For every run with honest retry flags, re-entrant or not: the SSL calls are in order exactly when
      every event is careful. */
  lemma CallsAreInOrder(nonblocking: bool, es: seq<Event>)
    requires Legal(Imported(nonblocking), es) && HonestRun(Imported(nonblocking), es)
    ensures WellFormed(Run(Imported(nonblocking), es).trace) <==> CarefulRun(Imported(nonblocking), es)
  {
    OrderIsCare(Imported(nonblocking), es);
  }

  // ----- environments in which every event is careful

  /** No read, write, notification or handshake starts while another is running. Watch, BlockMode,
      timers and callbacks may still nest freely. */
  predicate Sequential(w: World, e: Event) {
    e.Input? || e.Output? || e.Notify? || e.Handshake? ==> !Busy(w.frames)
  }

  /** Moreover, OpenSSL's retry flag is honest. */
  predicate Ordinary(w: World, e: Event) {
    Sequential(w, e) && HonestHere(w, e)
  }

  ghost predicate OrdinaryRun(w: World, es: seq<Event>)
    requires Legal(w, es)
    decreases |es|
  {
    es == [] || (Ordinary(w, es[0]) && OrdinaryRun(Step(w, es[0]), es[1..]))
  }

  predicate OneDriver(s: Stack) {
    s.Cons? ==> if IsDriver(s.top) then !Busy(s.below) else OneDriver(s.below)
  }

  /** What the one running call relies on while nothing else does I/O. */
  predicate Fits(c: Conn, f: Frame) {
    match f
    case WaitFrame(caller, _) => c.init && !c.fatal && (caller.ForInput? ==> !c.eof)
    case WaitDone(caller, result, _) =>
      && (result <= 0 ==> c.init)
      && (result > 0 && (caller.ForInput? || caller.ForOutput?) ==> !c.fatal)
      && (result > 0 && caller.ForInput? ==> !c.eof)
    case Settling(_, _, ToCaller(_, result, _)) => c.init && result <= 0
    case _ => true
  }

  predicate AllFit(c: Conn, s: Stack) {
    s.Cons? ==> Fits(c, s.top) && AllFit(c, s.below)
  }

  predicate Undisturbed(w: World) {
    OneDriver(w.frames) && AllFit(w.conn, w.frames)
  }

  lemma {:induction false} IdleFits(s: Stack, c: Conn)
    requires !Busy(s)
    ensures AllFit(c, s) && OneDriver(s)
  {
    if s.Nil? {
    } else {
      IdleFits(s.below, c);
    }
  }

  lemma OrdinaryIsCareful(w: World, e: Event)
    requires Undisturbed(w) && Enabled(w, e) && Ordinary(w, e)
    ensures Careful(w, e)
  {
    if !Busy(w.frames) {
      IdleStack(w.frames);
    } else if Continues(e) {
      IdleStack(w.frames.below);
    }
  }

  /** Only the running call changes the flags it relies on. */
  lemma BystanderFits(w: World, w': World)
    requires Undisturbed(w)
    requires w'.conn.init == w.conn.init && w'.conn.fatal == w.conn.fatal && w'.conn.eof == w.conn.eof
    requires w'.frames == w.frames
             || (w'.frames.Cons? && !IsDriver(w'.frames.top) && w'.frames.below == w.frames)
             || (w.frames.Cons? && w'.frames == w.frames.below)
    ensures Undisturbed(w')
  {
    SameFlagsFit(w.conn, w'.conn, w.frames);
    if w.frames.Cons? && w'.frames == w.frames.below && !Busy(w'.frames) {
      IdleFits(w'.frames, w'.conn);
    }
  }

  lemma SameFlagsFit(c: Conn, c': Conn, s: Stack)
    requires c'.init == c.init && c'.fatal == c.fatal && c'.eof == c.eof && AllFit(c, s)
    ensures AllFit(c', s)
  {}

  lemma EntryFits(w: World, e: Event)
    requires e.Input? || e.Output? || e.Handshake?
    requires Enabled(w, e) && !Busy(w.frames)
    ensures Undisturbed(Step(w, e))
  {
    IdleFits(w.frames, w.conn);
  }

  lemma NotifyFits(w: World, mask: Mask)
    requires Enabled(w, Notify(mask)) && !Busy(w.frames)
    ensures Undisturbed(Step(w, Notify(mask)))
  {
    DropTimerClears(w);
    IdleFits(w.frames, Step(w, Notify(mask)).conn);
  }

  lemma CloseFits(w: World)
    requires Enabled(w, Close)
    ensures Undisturbed(Step(w, Close))
  {
    CloseSets(w);
    IdleFits(w.frames, Step(w, Close).conn);
  }

  lemma ConnectFits(w: World, o: Outcome)
    requires w.frames.Cons? && w.frames.top.WaitFrame? && Genuine(o) && Honest(o) && Undisturbed(w)
    ensures Undisturbed(WaitReturns(w, o))
  {
    IdleFits(w.frames.below, WaitReturns(w, o).conn);
  }

  lemma ContinuingFits(w: World, e: Event)
    requires Enabled(w, e) && Undisturbed(w) && Continues(e)
    requires e.SslReturns? && w.frames.top.WaitFrame? ==> Honest(e.o)
    ensures Undisturbed(Step(w, e))
  {
    match e
    case SslReturns(o, data) =>
      if w.frames.top.WaitFrame? {
        ConnectFits(w, o);
      } else {
        IoFits(w, o, data);
      }
    case FlushReturns(_) => IdleFits(w.frames.below, Step(w, e).conn);
    case Settle => IdleFits(w.frames.below, Step(w, e).conn);
    case Resume => IdleFits(w.frames.below, Step(w, e).conn);
  }

  lemma IoFits(w: World, o: Outcome, data: seq<byte>)
    requires Enabled(w, SslReturns(o, data)) && Undisturbed(w) && !w.frames.top.WaitFrame?
    ensures Undisturbed(Step(w, SslReturns(o, data)))
  {
    IdleFits(w.frames.below, Step(w, SslReturns(o, data)).conn);
  }

  lemma TimerFits(w: World, e: Event)
    requires Undisturbed(w) && Enabled(w, e)
    requires e.Watch? || e.ShutdownReturns? || e.TimerFires? || e.TimerReturns? || e.CallbackReturns?
    ensures Undisturbed(Step(w, e))
  {
    match e {
      case Watch(mask) => WatchKeepsRest(w, mask);
      case ShutdownReturns => ShutdownSets(w);
      case TimerReturns => ReleaseKeepsRest(Pop(w).(conn := w.conn.(want := NO_EVENTS)));
      case CallbackReturns => ReleaseKeepsRest(Pop(w));
      case TimerFires(_, _, _) =>
    }
    BystanderFits(w, Step(w, e));
  }

  lemma StepFits(w: World, e: Event)
    requires Undisturbed(w) && Enabled(w, e) && Ordinary(w, e)
    ensures Undisturbed(Step(w, e))
  {
    match e
    case Input(_) => EntryFits(w, e);
    case Output(_) => EntryFits(w, e);
    case Handshake => EntryFits(w, e);
    case Notify(mask) => NotifyFits(w, mask);
    case Close => CloseFits(w);
    case BlockMode(_) => BystanderFits(w, Step(w, e));
    case CallbackEnters => BystanderFits(w, Step(w, e));
    case Watch(_) => TimerFits(w, e);
    case ShutdownReturns => TimerFits(w, e);
    case TimerFires(_, _, _) => TimerFits(w, e);
    case TimerReturns => TimerFits(w, e);
    case CallbackReturns => TimerFits(w, e);
    case _ => ContinuingFits(w, e);
  }

  lemma {:induction false} OrdinaryRunIsCareful(w: World, es: seq<Event>)
    requires Undisturbed(w) && Legal(w, es) && OrdinaryRun(w, es)
    ensures CarefulRun(w, es) && Undisturbed(Run(w, es))
    decreases |es|
  {
    if es == [] {
    } else {
      OrdinaryIsCareful(w, es[0]);
      StepFits(w, es[0]);
      OrdinaryRunIsCareful(Step(w, es[0]), es[1..]);
    }
  }

  /** While no driver call runs, FATAL_ERROR implies EOF, so no notification starts too early. */
  lemma {:induction false} OrdinaryRunIsNotEarly(w: World, es: seq<Event>)
    requires Reporting(w) && Legal(w, es) && OrdinaryRun(w, es)
    ensures !NotifiedEarlyIn(w, es)
    decreases |es|
  {
    if es == [] {
    } else {
      if !Busy(w.frames) {
        IdleStack(w.frames);
      }
      StepReports(w, es[0]);
      OrdinaryRunIsNotEarly(Step(w, es[0]), es[1..]);
    }
  }

  /** When no two I/O calls overlap and the retry flag is honest, the SSL calls stay in order, events
      are passed up only with INIT clear or EOF set, at every moment, and the result of
      Tls_WaitForConnect is exact: 1 means connected, and fit to read or write for those who ask,
      0 and -1 mean not connected, -1 with EOF set. */
  lemma OrdinaryTraceIsWellFormed(nonblocking: bool, es: seq<Event>)
    requires Legal(Imported(nonblocking), es) && OrdinaryRun(Imported(nonblocking), es)
    ensures GoodThroughout(Imported(nonblocking), es) && AlwaysInOrder(Imported(nonblocking), es)
    ensures var w := Run(Imported(nonblocking), es);
      && WellFormed(w.trace)
      && (PassedUp(w.results) ==> !w.conn.init || w.conn.eof)
      && (w.frames.Cons? && w.frames.top.WaitDone? ==>
            var WaitDone(caller, result, _) := w.frames.top;
            && (result == 1 <==> !w.conn.init)
            && (result == -1 ==> w.conn.eof)
            && (result == 1 && (caller.ForInput? || caller.ForOutput?) ==> !w.conn.fatal)
            && (result == 1 && caller.ForInput? ==> !w.conn.eof))
  {
    var w := Run(Imported(nonblocking), es);
    OrdinaryRunIsCareful(Imported(nonblocking), es);
    TraceIsWellFormed(nonblocking, es);
    RunReports(Imported(nonblocking), es);
    OrdinaryRunIsNotEarly(Imported(nonblocking), es);
    EarlyNotificationIff(nonblocking, es);
    InOrderAtTheEnd(Imported(nonblocking), es);
    if w.frames.Cons? && w.frames.top.WaitDone? {
      assert Fits(w.conn, w.frames.top) && Known(w.conn, w.frames.top);
      IdleStack(w.frames.below);
    }
  }

  // ----- tls::handshake

  /** In every run: tls::handshake answers 1 when the wait succeeded and, in blocking mode, also when it
      gave up with result 0, and only then can INIT still be set. When no other I/O interfered, a
      non-blocking call answers 1 exactly when INIT is clear. */
  lemma HandshakeAnswer(nonblocking: bool, es: seq<Event>)
    requires Legal(Imported(nonblocking), es)
    ensures var w := Run(Imported(nonblocking), es);
      w.frames.Cons? && w.frames.top.WaitDone? && w.frames.top.caller.ForHandshake? ==>
        var w' := Step(w, Resume);
        && w'.results.Then? && w'.results.earlier == w.results
        && (w'.results.last == HandshakeRet(1) && w'.conn.init <==>
              !w.conn.async && w.frames.top.result == 0 && w.conn.init)
        && (OrdinaryRun(Imported(nonblocking), es) && w.conn.async ==>
              (w'.results.last == HandshakeRet(1) <==> !w'.conn.init))
  {
    RunReports(Imported(nonblocking), es);
    var w := Run(Imported(nonblocking), es);
    if w.frames.Cons? && w.frames.top.WaitDone? {
      assert Known(w.conn, w.frames.top);
      if OrdinaryRun(Imported(nonblocking), es) {
        OrdinaryRunIsCareful(Imported(nonblocking), es);
        assert Fits(w.conn, w.frames.top);
      }
    }
  }

  // ----- the retry flag

  /** One return of a handshake call with no other I/O running keeps calls and flags in agreement
      exactly when it is not retried, the retry flag is honest, or it claims no more than the end of a
      connection that has ended before. */
  lemma HonestyDecides(w: World, o: Outcome)
    requires w.frames.Cons? && w.frames.top.WaitFrame? && Genuine(o)
    requires Good(w) && Undisturbed(w)
    ensures Good(WaitReturns(w, o)) <==>
      || Honest(o)
      || (!w.conn.async && w.frames.top.retries == 0)
      || (w.conn.eof && IsEnd(Result(Connect, o)) && !IsFatal(Result(Connect, o)))
  {
    ConnectIsGood(w, o);
    IdleStack(w.frames.below);
    assert Fits(w.conn, w.frames.top);
  }

  // ----- careless runs exist

  /** A script run during SSL_connect that itself completes the handshake makes the outer blocking
      wait call SSL_connect again after the success. */
  lemma ReentrantHandshakeRepeats()
    ensures exists w :: Reaches(Imported(false), w) && !WellFormed(w.trace)
  {
    var w0 := Imported(false);
    ReachesSelf(w0);
    ReachesNext(w0, w0, Handshake);
    var w1 := Step(w0, Handshake);
    ReachesNext(w0, w1, CallbackEnters);
    var w2 := Step(w1, CallbackEnters);
    assert w2.frames == Cons(CallbackFrame, Cons(WaitFrame(ForHandshake, RETRIES), Nil));
    ReachesNext(w0, w2, Handshake);
    NestedSuccess(w0, Step(w2, Handshake));
  }

  lemma NestedSuccess(w0: World, w3: World)
    requires Reaches(w0, w3) && !w3.conn.async
    requires w3.frames == Cons(WaitFrame(ForHandshake, RETRIES),
                               Cons(CallbackFrame, Cons(WaitFrame(ForHandshake, RETRIES), Nil)))
    ensures exists w :: Reaches(w0, w) && !WellFormed(w.trace)
  {
    var done := SslReturns(Outcome(1, ErrorNone, 0, false, false, NoErrno), []);
    ReachesNext(w0, w3, done);
    var w4 := Step(w3, done);
    assert w4.frames == Cons(WaitDone(ForHandshake, 1, NoErrno), w3.frames.below) && Connected(w4.trace);
    ReachesNext(w0, w4, Resume);
    var w5 := Step(w4, Resume);
    ReachesNext(w0, w5, CallbackReturns);
    OuterRetry(w0, Step(w5, CallbackReturns));
  }

  lemma OuterRetry(w0: World, w6: World)
    requires Reaches(w0, w6) && !w6.conn.async && Connected(w6.trace)
    requires w6.frames == Cons(WaitFrame(ForHandshake, RETRIES), Nil)
    ensures exists w :: Reaches(w0, w) && !WellFormed(w.trace)
  {
    var o := Outcome(-1, WantRead, 0, false, false, NoErrno);
    ReachesNext(w0, w6, SslReturns(o, []));
    var w7 := Step(w6, SslReturns(o, []));
    assert w7.trace == Then(Then(w6.trace, Result(Connect, o)), Call(Connect));
    assert !Permitted(w7.trace.earlier, Connect);
  }

  /** Even with an honest retry flag and in non-blocking mode: a script that Tls_Error runs for a failed
      handshake, and that calls tls::handshake itself, makes SSL_connect run after the fatal error. */
  lemma HandshakeAfterFailure()
    ensures exists w :: Reaches(Imported(true), w) && !WellFormed(w.trace)
  {
    var w0 := Imported(true);
    ReachesSelf(w0);
    ReachesNext(w0, w0, Handshake);
    var w1 := Step(w0, Handshake);
    var o := Outcome(-1, ErrorSsl, 1, false, false, NoErrno);
    ReachesNext(w0, w1, SslReturns(o, []));
    var w2 := Step(w1, SslReturns(o, []));
    assert w2.frames == Cons(Settling(true, true, ToCaller(ForHandshake, -1, ECONNABORTED)), Nil);
    assert IsFatal(w2.trace.last) && !w2.conn.fatal && w2.conn.init && w2.core.open;
    ReachesNext(w0, w2, CallbackEnters);
    var w3 := Step(w2, CallbackEnters);
    ReachesNext(w0, w3, Handshake);
    assert Step(w3, Handshake).trace == Then(w2.trace, Call(Connect));
  }
}
