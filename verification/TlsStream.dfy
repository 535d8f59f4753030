/** Two channels joined by a lossless, ordered connection: application bytes arrive in order. */
module TlsStream {
  import opened TlsTypes
  import opened TlsMachine
  import opened TlsFlags

  // ----- what an application was told

  /** The bytes a result of TlsOutputProc says were accepted. */
  function Accepted(r: Return): seq<byte> {
    if r.OutputRet? && 0 < r.n <= |r.offered| then r.offered[..r.n] else []
  }

  /** The bytes a result of TlsInputProc delivers. */
  function Delivered(r: Return): seq<byte> {
    if r.InputRet? && 0 < r.n <= |r.data| then r.data[..r.n] else []
  }

  function Told(r: Log<Return>): seq<byte> {
    if r.Start? then [] else Told(r.earlier) + Accepted(r.last)
  }

  function Got(r: Log<Return>): seq<byte> {
    if r.Start? then [] else Got(r.earlier) + Delivered(r.last)
  }

  // ----- what OpenSSL really took and gave

  function Taken(w: World, e: Event): seq<byte>
    requires Enabled(w, e)
  {
    if e.SslReturns? && w.frames.top.WriteFrame? && e.o.ret > 0 then w.frames.top.buf[..e.o.ret] else []
  }

  function Given(w: World, e: Event): seq<byte>
    requires Enabled(w, e)
  {
    if e.SslReturns? && w.frames.top.ReadFrame? && e.o.ret > 0 then e.data else []
  }

  /** Results still to be returned by interrupted calls move no bytes. */
  predicate MovesNothing(r: Return) {
    Accepted(r) == [] && Delivered(r) == []
  }

  predicate PendingMoveNothing(s: Stack) {
    s.Cons? ==>
      && (s.top.Settling? && s.top.next.ToApp? ==> MovesNothing(s.top.next.ret))
      && PendingMoveNothing(s.below)
  }

  /** The driver tells the application the truth: a step reports exactly the bytes OpenSSL moved. */
  predicate Truthful(w: World, e: Event, w': World)
    requires Enabled(w, e)
  {
    && Told(w'.results) == Told(w.results) + Taken(w, e)
    && Got(w'.results) == Got(w.results) + Given(w, e)
    && PendingMoveNothing(w'.frames)
  }

  lemma JudgedMovesNothing(w: World, v: Verdict)
    requires w.frames.Cons? && PendingMoveNothing(w.frames)
    requires v.next.ToApp? ==> MovesNothing(v.next.ret)
    ensures var w' := Judged(w, v);
      Told(w'.results) == Told(w.results) && Got(w'.results) == Got(w.results) && PendingMoveNothing(w'.frames)
  {}

  lemma ConnectIsTruthful(w: World, o: Outcome, data: seq<byte>)
    requires PendingMoveNothing(w.frames) && Enabled(w, SslReturns(o, data)) && w.frames.top.WaitFrame?
    ensures Truthful(w, SslReturns(o, data), WaitReturns(w, o))
  {
    JudgedMovesNothing(Traced(w, Result(Connect, o)).(conn := AfterAttempt(w.conn, o)),
                       WaitVerdict(o, w.frames.top.caller));
  }

  lemma IoIsTruthful(w: World, o: Outcome, data: seq<byte>)
    requires PendingMoveNothing(w.frames) && Enabled(w, SslReturns(o, data)) && !w.frames.top.WaitFrame?
    ensures Truthful(w, SslReturns(o, data), Step(w, SslReturns(o, data)))
  {
    if o.rc.ErrorNone? {
    } else if w.frames.top.ReadFrame? {
      JudgedMovesNothing(Traced(w, Result(Read, o)), ReadVerdict(o, data));
    } else {
      JudgedMovesNothing(Traced(w, Result(Write, o)), WriteVerdict(o, w.frames.top.buf));
    }
  }

  lemma SslIsTruthful(w: World, o: Outcome, data: seq<byte>)
    requires PendingMoveNothing(w.frames) && Enabled(w, SslReturns(o, data))
    ensures Truthful(w, SslReturns(o, data), Step(w, SslReturns(o, data)))
  {
    if w.frames.top.WaitFrame? {
      ConnectIsTruthful(w, o, data);
    } else {
      IoIsTruthful(w, o, data);
    }
  }

  lemma CloseIsTruthful(w: World, e: Event)
    requires PendingMoveNothing(w.frames) && Enabled(w, e) && (e.Close? || e.ShutdownReturns?)
    ensures Truthful(w, e, Step(w, e))
  {
    match e
    case Close => CloseSets(w);
    case ShutdownReturns => ShutdownSets(w);
  }

  lemma WatchIsTruthful(w: World, mask: Mask)
    requires PendingMoveNothing(w.frames) && Enabled(w, Watch(mask))
    ensures Truthful(w, Watch(mask), Step(w, Watch(mask)))
  {
    WatchKeepsRest(w, mask);
  }

  lemma NotifyIsTruthful(w: World, mask: Mask)
    requires PendingMoveNothing(w.frames) && Enabled(w, Notify(mask))
    ensures Truthful(w, Notify(mask), Step(w, Notify(mask)))
  {
    DropTimerClears(w);
  }

  lemma TimerIsTruthful(w: World, e: Event)
    requires PendingMoveNothing(w.frames) && Enabled(w, e)
    requires e.TimerFires? || e.TimerReturns? || e.CallbackReturns?
    ensures Truthful(w, e, Step(w, e))
  {}

  lemma ContinuingIsTruthful(w: World, e: Event)
    requires PendingMoveNothing(w.frames) && Enabled(w, e)
    requires e.FlushReturns? || e.Settle? || e.Resume?
    ensures Truthful(w, e, Step(w, e))
  {}

  /** For every channel state and every event, re-entrant or not. */
  lemma StepIsTruthful(w: World, e: Event)
    requires PendingMoveNothing(w.frames) && Enabled(w, e)
    ensures Truthful(w, e, Step(w, e))
  {
    match e
    case SslReturns(o, data) => SslIsTruthful(w, o, data);
    case FlushReturns(_) => ContinuingIsTruthful(w, e);
    case Settle => ContinuingIsTruthful(w, e);
    case Resume => ContinuingIsTruthful(w, e);
    case Watch(mask) => WatchIsTruthful(w, mask);
    case Notify(mask) => NotifyIsTruthful(w, mask);
    case Close => CloseIsTruthful(w, e);
    case ShutdownReturns => CloseIsTruthful(w, e);
    case TimerFires(_, _, _) => TimerIsTruthful(w, e);
    case TimerReturns => TimerIsTruthful(w, e);
    case CallbackReturns => TimerIsTruthful(w, e);
    case _ =>
  }

  // ----- two endpoints

  /** One direction of the connection: everything OpenSSL took, and how much of it was given out. */
  datatype Pipe = Pipe(sent: seq<byte>, given: nat)

  datatype Pair = Pair(left: World, right: World, toRight: Pipe, toLeft: Pipe)

  datatype PairEvent = AtLeft(e: Event) | AtRight(e: Event)

  function Joined(leftNonblocking: bool, rightNonblocking: bool): Pair {
    Pair(Imported(leftNonblocking), Imported(rightNonblocking), Pipe([], 0), Pipe([], 0))
  }

  /** OpenSSL hands out the next bytes of the stream, and only bytes that were sent. */
  predicate InOrder(w: World, e: Event, p: Pipe) {
    Enabled(w, e) && p.given <= |p.sent| && Given(w, e) <= p.sent[p.given..]
  }

  predicate Possible(s: Pair, pe: PairEvent) {
    match pe
    case AtLeft(e) => InOrder(s.left, e, s.toLeft)
    case AtRight(e) => InOrder(s.right, e, s.toRight)
  }

  function Advance(s: Pair, pe: PairEvent): Pair
    requires Possible(s, pe)
  {
    match pe
    case AtLeft(e) =>
      s.(left := Step(s.left, e),
         toRight := s.toRight.(sent := s.toRight.sent + Taken(s.left, e)),
         toLeft := s.toLeft.(given := s.toLeft.given + |Given(s.left, e)|))
    case AtRight(e) =>
      s.(right := Step(s.right, e),
         toLeft := s.toLeft.(sent := s.toLeft.sent + Taken(s.right, e)),
         toRight := s.toRight.(given := s.toRight.given + |Given(s.right, e)|))
  }

  ghost predicate Admissible(s: Pair, pes: seq<PairEvent>)
    decreases |pes|
  {
    pes == [] || (Possible(s, pes[0]) && Admissible(Advance(s, pes[0]), pes[1..]))
  }

  ghost function Play(s: Pair, pes: seq<PairEvent>): Pair
    requires Admissible(s, pes)
    decreases |pes|
  {
    if pes == [] then s else Play(Advance(s, pes[0]), pes[1..])
  }

  /** The writer was told exactly what was sent, the reader holds exactly what was given out. */
  predicate Conveys(writer: World, p: Pipe, reader: World) {
    && Told(writer.results) == p.sent
    && p.given <= |p.sent|
    && Got(reader.results) == p.sent[..p.given]
    && PendingMoveNothing(writer.frames)
    && PendingMoveNothing(reader.frames)
  }

  lemma WriterStepConveys(w: World, p: Pipe, r: World, e: Event)
    requires Conveys(w, p, r) && Enabled(w, e)
    ensures Conveys(Step(w, e), p.(sent := p.sent + Taken(w, e)), r)
  {
    StepIsTruthful(w, e);
  }

  lemma ReaderStepConveys(w: World, p: Pipe, r: World, e: Event)
    requires Conveys(w, p, r) && InOrder(r, e, p)
    ensures Conveys(w, p.(given := p.given + |Given(r, e)|), Step(r, e))
  {
    StepIsTruthful(r, e);
    assert p.sent[..p.given] + p.sent[p.given..][..|Given(r, e)|] == p.sent[..p.given + |Given(r, e)|];
  }

  lemma AdvanceConveys(s: Pair, pe: PairEvent)
    requires Conveys(s.left, s.toRight, s.right) && Conveys(s.right, s.toLeft, s.left) && Possible(s, pe)
    ensures var s' := Advance(s, pe);
      Conveys(s'.left, s'.toRight, s'.right) && Conveys(s'.right, s'.toLeft, s'.left)
  {
    match pe
    case AtLeft(e) =>
      WriterStepConveys(s.left, s.toRight, s.right, e);
      ReaderStepConveys(s.right, s.toLeft, s.left, e);
    case AtRight(e) =>
      WriterStepConveys(s.right, s.toLeft, s.left, e);
      ReaderStepConveys(s.left, s.toRight, s.right, e);
  }

  lemma {:induction false} PlayConveys(s: Pair, pes: seq<PairEvent>)
    requires Conveys(s.left, s.toRight, s.right) && Conveys(s.right, s.toLeft, s.left) && Admissible(s, pes)
    ensures var s' := Play(s, pes);
      Conveys(s'.left, s'.toRight, s'.right) && Conveys(s'.right, s'.toLeft, s'.left)
    decreases |pes|
  {
    if pes == [] {
    } else {
      AdvanceConveys(s, pes[0]);
      PlayConveys(Advance(s, pes[0]), pes[1..]);
    }
  }

  /** For every interleaving of both endpoints, in both directions, with short transfers, retries,
      errors, timers and re-entrant scripts: the bytes a reading application received are that prefix
      of the bytes the writing application was told were accepted which OpenSSL has given out. */
  lemma BytesArriveInOrder(leftNonblocking: bool, rightNonblocking: bool, pes: seq<PairEvent>)
    requires Admissible(Joined(leftNonblocking, rightNonblocking), pes)
    ensures var s := Play(Joined(leftNonblocking, rightNonblocking), pes);
      && s.toRight.given <= |Told(s.left.results)|
      && s.toLeft.given <= |Told(s.right.results)|
      && Got(s.right.results) == Told(s.left.results)[..s.toRight.given]
      && Got(s.left.results) == Told(s.right.results)[..s.toLeft.given]
  {
    PlayConveys(Joined(leftNonblocking, rightNonblocking), pes);
  }

  // ----- a caller that resends only what was not accepted

  /** The frame belongs to a write whose bytes OpenSSL has not answered for yet. */
  predicate Carries(f: Frame) {
    match f
    case WaitFrame(caller, _) => caller.ForOutput?
    case WaitDone(caller, _, _) => caller.ForOutput?
    case Settling(_, _, ToCaller(caller, _, _)) => caller.ForOutput?
    case WriteFrame(_) => true
    case _ => false
  }

  predicate Writing(s: Stack) {
    s.Cons? && (Carries(s.top) || Writing(s.below))
  }

  predicate OneWriter(s: Stack) {
    s.Cons? ==> if Carries(s.top) then !Writing(s.below) else OneWriter(s.below)
  }

  /** The bytes a running write still offers to OpenSSL come next in the message. */
  predicate Offers(f: Frame, rest: seq<byte>) {
    match f
    case WaitFrame(ForOutput(buf), _) => buf <= rest
    case WaitDone(ForOutput(buf), _, _) => buf <= rest
    case Settling(_, _, ToCaller(ForOutput(buf), _, _)) => buf <= rest
    case WriteFrame(buf) => buf <= rest
    case _ => true
  }

  predicate AllOffer(s: Stack, rest: seq<byte>) {
    s.Cons? ==> Offers(s.top, rest) && AllOffer(s.below, rest)
  }

  /** The application writes the next bytes of its message, and no write while another one runs. */
  predicate Resends(w: World, e: Event, message: seq<byte>) {
    e.Output? ==>
      && !Writing(w.frames)
      && |Told(w.results)| <= |message| && e.buf <= message[|Told(w.results)|..]
  }

  /** One write at most is running, and it offers what comes next. */
  predicate Ready(s: Stack, rest: seq<byte>) {
    OneWriter(s) && AllOffer(s, rest)
  }

  predicate Sending(w: World, message: seq<byte>) {
    && PendingMoveNothing(w.frames)
    && Told(w.results) <= message
    && Ready(w.frames, message[|Told(w.results)|..])
  }

  lemma NobodyWrites(s: Stack, rest: seq<byte>)
    requires !Writing(s)
    ensures Ready(s, rest)
  {}

  /** The top frame may be replaced by one that offers the same bytes or none. */
  lemma TopKeepsOffer(s: Stack, f: Frame, rest: seq<byte>)
    requires s.Cons? && Ready(s, rest) && Offers(f, rest) && (Carries(f) ==> Carries(s.top))
    ensures Ready(Cons(f, s.below), rest) && Ready(s.below, rest)
  {
    if Carries(s.top) {
      NobodyWrites(s.below, rest);
    }
  }

  lemma JudgedKeepsOffer(w: World, v: Verdict, rest: seq<byte>)
    requires w.frames.Cons? && Ready(w.frames, rest)
    requires v.next.ToCaller? && v.next.caller.ForOutput? ==> Carries(w.frames.top) && v.next.caller.buf <= rest
    ensures Ready(Judged(w, v).frames, rest)
  {
    match v.report
    case Some(later) => TopKeepsOffer(w.frames, Settling(later.fatal, later.eof, v.next), rest);
    case None =>
      match v.next {
        case ToCaller(caller, result, error) => TopKeepsOffer(w.frames, WaitDone(caller, result, error), rest);
        case ToApp(_) => TopKeepsOffer(w.frames, FlushFrame, rest);
      }
  }

  lemma ConnectKeepsOffer(w: World, o: Outcome, rest: seq<byte>)
    requires w.frames.Cons? && w.frames.top.WaitFrame? && Ready(w.frames, rest)
    ensures Ready(WaitReturns(w, o).frames, rest)
  {
    var WaitFrame(caller, retries) := w.frames.top;
    if Retryable(o) && w.conn.async {
      TopKeepsOffer(w.frames, WaitDone(caller, 0, EAGAIN), rest);
    } else if Retryable(o) && retries > 0 {
      TopKeepsOffer(w.frames, WaitFrame(caller, retries - 1), rest);
    } else {
      JudgedKeepsOffer(Traced(w, Result(Connect, o)).(conn := AfterAttempt(w.conn, o)), WaitVerdict(o, caller), rest);
    }
  }

  lemma ConnectKeepsSending(w: World, o: Outcome, message: seq<byte>)
    requires Sending(w, message) && w.frames.Cons? && w.frames.top.WaitFrame? && Genuine(o)
    ensures Sending(WaitReturns(w, o), message)
  {
    var w' := WaitReturns(w, o);
    ConnectIsTruthful(w, o, []);
    assert Told(w'.results) == Told(w.results);
    ConnectKeepsOffer(w, o, message[|Told(w.results)|..]);
  }

  lemma ReadKeepsSending(w: World, o: Outcome, data: seq<byte>, message: seq<byte>)
    requires Sending(w, message) && Enabled(w, SslReturns(o, data)) && w.frames.top.ReadFrame?
    ensures Sending(Step(w, SslReturns(o, data)), message)
  {
    IoIsTruthful(w, o, data);
    JudgedKeepsOffer(Traced(w, Result(Read, o)), ReadVerdict(o, data), message[|Told(w.results)|..]);
  }

  lemma WriteKeepsSending(w: World, o: Outcome, data: seq<byte>, message: seq<byte>)
    requires Sending(w, message) && Enabled(w, SslReturns(o, data)) && w.frames.top.WriteFrame?
    ensures Sending(Step(w, SslReturns(o, data)), message)
  {
    IoIsTruthful(w, o, data);
    var told, buf, w' := Told(w.results), w.frames.top.buf, WriteReturns(w, o);
    assert Offers(w.frames.top, message[|told|..]);
    if o.ret > 0 {
      PrefixGrows(told, buf[..o.ret], message);
      assert w'.frames == w.frames.below;
      NobodyWrites(w.frames.below, message[|Told(w'.results)|..]);
    } else {
      JudgedKeepsOffer(Traced(w, Result(Write, o)), WriteVerdict(o, buf), message[|told|..]);
    }
  }

  lemma PrefixGrows(told: seq<byte>, more: seq<byte>, message: seq<byte>)
    requires told <= message && more <= message[|told|..]
    ensures told + more <= message
  {}

  lemma EntryKeepsSending(w: World, e: Event, message: seq<byte>)
    requires e.Input? || e.Output? || e.Handshake? || e.Notify? || e.Close?
    requires Sending(w, message) && Enabled(w, e) && Resends(w, e, message)
    ensures Sending(Step(w, e), message)
  {
    StepIsTruthful(w, e);
    match e
    case Notify(_) => DropTimerClears(w);
    case Close => CloseSets(w);
    case _ =>
  }

  lemma TimerKeepsSending(w: World, e: Event, message: seq<byte>)
    requires e.Watch? || e.ShutdownReturns? || e.TimerFires? || e.TimerReturns? || e.CallbackReturns?
    requires Sending(w, message) && Enabled(w, e)
    ensures Sending(Step(w, e), message)
  {
    StepIsTruthful(w, e);
    match e
    case Watch(mask) => WatchKeepsRest(w, mask);
    case ShutdownReturns => ShutdownSets(w);
    case TimerReturns => ReleaseKeepsRest(Pop(w).(conn := w.conn.(want := NO_EVENTS)));
    case CallbackReturns => ReleaseKeepsRest(Pop(w));
    case TimerFires(_, _, _) =>
  }

  lemma SettleKeepsSending(w: World, message: seq<byte>)
    requires Sending(w, message) && Enabled(w, Settle)
    ensures Sending(Settled(w), message)
  {
    ContinuingIsTruthful(w, Settle);
    var rest := message[|Told(w.results)|..];
    match w.frames.top.next
    case ToCaller(caller, result, error) => TopKeepsOffer(w.frames, WaitDone(caller, result, error), rest);
    case ToApp(_) => TopKeepsOffer(w.frames, FlushFrame, rest);
  }

  lemma ResumeKeepsSending(w: World, message: seq<byte>)
    requires Sending(w, message) && Enabled(w, Resume)
    ensures Sending(Resumed(w), message)
  {
    ContinuingIsTruthful(w, Resume);
    var rest := message[|Told(w.results)|..];
    TopKeepsOffer(w.frames, FlushFrame, rest);
    match w.frames.top.caller
    case ForInput(size) => TopKeepsOffer(w.frames, ReadFrame(size), rest);
    case ForOutput(buf) => TopKeepsOffer(w.frames, WriteFrame(buf), rest);
    case _ =>
  }

  lemma FlushKeepsSending(w: World, ok: bool, message: seq<byte>)
    requires Sending(w, message) && Enabled(w, FlushReturns(ok))
    ensures Sending(Step(w, FlushReturns(ok)), message)
  {
    ContinuingIsTruthful(w, FlushReturns(ok));
    TopKeepsOffer(w.frames, Settling(false, false, ToApp(OutputRet(-1, EIO, []))), message[|Told(w.results)|..]);
  }

  lemma StepKeepsSending(w: World, e: Event, message: seq<byte>)
    requires Sending(w, message) && Enabled(w, e) && Resends(w, e, message)
    ensures Sending(Step(w, e), message)
  {
    match e
    case SslReturns(o, data) =>
      match w.frames.top {
        case WaitFrame(_, _) => ConnectKeepsSending(w, o, message);
        case ReadFrame(_) => ReadKeepsSending(w, o, data, message);
        case WriteFrame(_) => WriteKeepsSending(w, o, data, message);
      }
    case FlushReturns(ok) => FlushKeepsSending(w, ok, message);
    case Settle => SettleKeepsSending(w, message);
    case Resume => ResumeKeepsSending(w, message);
    case Watch(_) => TimerKeepsSending(w, e, message);
    case ShutdownReturns => TimerKeepsSending(w, e, message);
    case TimerFires(_, _, _) => TimerKeepsSending(w, e, message);
    case TimerReturns => TimerKeepsSending(w, e, message);
    case CallbackReturns => TimerKeepsSending(w, e, message);
    case BlockMode(_) =>
    case CallbackEnters =>
    case _ => EntryKeepsSending(w, e, message);
  }

  ghost predicate LeftSends(s: Pair, pes: seq<PairEvent>, message: seq<byte>)
    requires Admissible(s, pes)
    decreases |pes|
  {
    pes == [] ||
    ((pes[0].AtLeft? ==> Resends(s.left, pes[0].e, message)) && LeftSends(Advance(s, pes[0]), pes[1..], message))
  }

  lemma {:induction false} PlayKeepsSending(s: Pair, pes: seq<PairEvent>, message: seq<byte>)
    requires Admissible(s, pes) && LeftSends(s, pes, message) && Sending(s.left, message)
    ensures Sending(Play(s, pes).left, message)
    decreases |pes|
  {
    if pes == [] {
    } else {
      if pes[0].AtLeft? {
        StepKeepsSending(s.left, pes[0].e, message);
      }
      PlayKeepsSending(Advance(s, pes[0]), pes[1..], message);
    }
  }

  /** When the writing application offers only bytes not yet accepted, one write at a time, the reading
      application receives a prefix of the message: nothing lost, doubled or reordered. Reads,
      notifications and handshakes may overlap a write, and a script may write during any of them. */
  lemma MessageArrives(leftNonblocking: bool, rightNonblocking: bool, pes: seq<PairEvent>, message: seq<byte>)
    requires Admissible(Joined(leftNonblocking, rightNonblocking), pes)
    requires LeftSends(Joined(leftNonblocking, rightNonblocking), pes, message)
    ensures var s := Play(Joined(leftNonblocking, rightNonblocking), pes);
      Got(s.right.results) <= Told(s.left.results) <= message
  {
    var s := Joined(leftNonblocking, rightNonblocking);
    BytesArriveInOrder(leftNonblocking, rightNonblocking, pes);
    PlayKeepsSending(s, pes, message);
  }
}
