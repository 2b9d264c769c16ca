/** What the protocol of `ClientSocket` guarantees over every schedule. */
module ForwardedConnection {
  import opened Prelude
  import opened ClientSocket
  import C = ConnectionObject

  // --------------------------------------------- what the environment did

  /** `forward_to_port` raises at this event. */
  predicate RpcFails(e: RpcEvent) {
    e.RpcRaised? || (e.Response? && e.code != 0)
  }

  function FrameOf(e: RpcEvent): Frame {
    if e.Response? then e.frame else []
  }

  /** The events of the PortForward stream that the handler took, in order. */
  function StreamEvents(schedule: seq<Action>): seq<RpcEvent> {
    if schedule == [] then []
    else
      var before, a := schedule[..|schedule| - 1], schedule[|schedule| - 1];
      StreamEvents(before)
      + (if a.Handler? && Run(Init, before).handler == Forwarding(Next) then [a.rpc] else [])
  }

  /** The call itself raised. */
  predicate CallFailed(schedule: seq<Action>) {
    schedule != [] &&
    var before, a := schedule[..|schedule| - 1], schedule[|schedule| - 1];
    CallFailed(before) || (a.Handler? && Run(Init, before).handler == Forwarding(Call) && a.rpc.RpcRaised?)
  }

  /** A `recv` that gives a frame, and one that ends the client's side. */
  predicate TakesFrame(s: State, a: Action) {
    a.Reader? && s.reader.RRecv? && a.recv.Received? && 1 <= |a.recv.frame| <= 1024
  }

  predicate Ends(s: State, a: Action) {
    a.Reader? && s.reader.RRecv? && (a.recv.RecvRaised? || a.recv.frame == [])
  }

  /** The frames the client's `recv` calls gave. */
  function ClientFrames(schedule: seq<Action>): seq<Frame> {
    if schedule == [] then []
    else
      var before, a := schedule[..|schedule| - 1], schedule[|schedule| - 1];
      ClientFrames(before)
      + (if TakesFrame(Run(Init, before), a) then [a.recv.frame] else [])
  }

  /** A `recv` gave nothing, or raised. */
  predicate ClientEnded(schedule: seq<Action>) {
    schedule != [] &&
    var before, a := schedule[..|schedule| - 1], schedule[|schedule| - 1];
    ClientEnded(before) || Ends(Run(Init, before), a)
  }

  /** The `send` that this action is, if the socket can answer so. */
  predicate Sends(s: State, a: Action) {
    a.Writer? && s.writer.WSend? && 1 <= a.count <= |s.writer.buf|
  }

  /** The bytes the local socket took. */
  function SocketBytes(schedule: seq<Action>): seq<Byte> {
    if schedule == [] then []
    else
      var before, a := schedule[..|schedule| - 1], schedule[|schedule| - 1];
      var s := Run(Init, before);
      SocketBytes(before) + (if Sends(s, a) then s.writer.buf[..a.count] else [])
  }

  /** Every `send` took its whole argument. */
  predicate OnlyFullSends(schedule: seq<Action>) {
    schedule == [] ||
    var before, a := schedule[..|schedule| - 1], schedule[|schedule| - 1];
    var s := Run(Init, before);
    OnlyFullSends(before) && (Sends(s, a) ==> a.count == |s.writer.buf|)
  }

  predicate IsRaised(s: State) {
    s.handler.Exiting? && s.handler.outcome.Raised?
  }

  /** How many events of the stream did not raise; only the last one can. */
  function Yielding(events: seq<RpcEvent>): nat {
    if events != [] && RpcFails(events[|events| - 1]) then |events| - 1 else |events|
  }

  /** What was yielded is what the worker sent; an exception leaves `handle`
      exactly if the RPC gave one. */
  predicate StreamSeen(s: State, schedule: seq<Action>) {
    var events := StreamEvents(schedule);
    var n := Yielding(events);
    && |s.log.yielded| == n
    && (forall i :: 0 <= i < n ==> !RpcFails(events[i]) && s.log.yielded[i] == FrameOf(events[i]))
    && (IsRaised(s) <==> CallFailed(schedule) || n < |events|)
  }

  predicate SocketSeen(s: State, schedule: seq<Action>) {
    s.log.wire == SocketBytes(schedule) && (s.log.fullSends <==> OnlyFullSends(schedule))
  }

  predicate Stopped(pc: ReaderPc) {
    pc.RFinally? || pc.RExited?
  }

  /** The handler has told the reader to stop. */
  predicate ToldToStop(pc: HandlerPc) {
    HandlerSetRequests(pc) && DidForward(pc)
  }

  /** The reader stops when the client ended, and else only when it is told to. */
  predicate ClientSeen(s: State, schedule: seq<Action>) {
    && s.log.received == ClientFrames(schedule)
    && (ClientEnded(schedule) ==> Stopped(s.reader))
    && (Stopped(s.reader) ==> ClientEnded(schedule) || ToldToStop(s.handler))
  }

  /** The stream's part of a step. */
  lemma StreamStep(s: State, a: Action)
    ensures
      var t := Step(s, a);
      if a.Handler? && s.handler == Forwarding(Next) then
        && IsRaised(t) == RpcFails(a.rpc) && t.handler != Forwarding(Next)
        && t.log.yielded == s.log.yielded + if RpcFails(a.rpc) then [] else [FrameOf(a.rpc)]
      else
        && t.log.yielded == s.log.yielded
        && (IsRaised(t) <==> IsRaised(s) || (a.Handler? && s.handler == Forwarding(Call) && a.rpc.RpcRaised?))
  {
    match a
    case Handler(rpc) => HandlerStreamStep(s, rpc);
    case Writer(count) => WriterYieldFrame(s, count);
    case Reader(recv) => ReaderFrame(s, recv);
    case Puller => PullerFrame(s);
  }

  lemma HandlerStreamStep(s: State, rpc: RpcEvent)
    ensures
      var t := HandlerStep(s, rpc);
      if s.handler == Forwarding(Next) then
        && IsRaised(t) == RpcFails(rpc) && t.handler != Forwarding(Next)
        && t.log.yielded == s.log.yielded + if RpcFails(rpc) then [] else [FrameOf(rpc)]
      else
        && t.log.yielded == s.log.yielded
        && (IsRaised(t) <==> IsRaised(s) || (s.handler == Forwarding(Call) && rpc.RpcRaised?))
  {
  }

  /** The local socket's part of a step. */
  lemma SocketStep(s: State, a: Action)
    ensures
      var t := Step(s, a);
      && t.log.wire == s.log.wire + (if Sends(s, a) then s.writer.buf[..a.count] else [])
      && (t.log.fullSends <==> s.log.fullSends && (Sends(s, a) ==> a.count == |s.writer.buf|))
      && (!a.Writer? ==> t.writer == s.writer && t.log.sent == s.log.sent)
  {
    match a
    case Handler(rpc) => HandlerLeavesThreads(s, rpc);
    case Writer(count) => assert Step(s, a) == WriterStep(s, count);
    case Reader(recv) => ReaderFrame(s, recv);
    case Puller => PullerFrame(s);
  }

  /** The handler leaves the reader, the writer and what they record alone. */
  predicate ThreadsSame(s: State, t: State) {
    && t.reader == s.reader && t.log.received == s.log.received
    && t.writer == s.writer && t.log.sent == s.log.sent
    && t.log.wire == s.log.wire && t.log.fullSends == s.log.fullSends
  }

  lemma ForwardLeavesThreads(s: State, pc: ForwardPc, rpc: RpcEvent)
    ensures ThreadsSame(s, ForwardStep(s, pc, rpc))
  {
  }

  lemma HandlerLeavesThreads(s: State, rpc: RpcEvent)
    ensures ThreadsSame(s, HandlerStep(s, rpc))
  {
    match s.handler
    case Deciding(pc) => assert ThreadsSame(s, DecideStep(s, pc));
    case Forwarding(pc) => ForwardLeavesThreads(s, pc, rpc);
    case Declining(pc) => assert ThreadsSame(s, DeclineStep(s, pc));
    case Joining(forwarded, pc) => assert ThreadsSame(s, JoinStep(s, forwarded, pc));
    case Exiting(outcome, pc) => assert ThreadsSame(s, ExitStep(s, outcome, pc));
  }

  lemma StaysTold(s: State, rpc: RpcEvent)
    requires ToldToStop(s.handler)
    ensures ToldToStop(HandlerStep(s, rpc).handler)
  {
    match s.handler
    case Joining(forwarded, pc) =>
    case Exiting(outcome, pc) => assert HandlerStep(s, rpc) == ExitStep(s, outcome, pc);
    case _ =>
  }

  /** The client's part of a step. */
  lemma ClientStep(s: State, a: Action)
    requires RequestInv(s)
    ensures
      var t := Step(s, a);
      && t.log.received == s.log.received + (if TakesFrame(s, a) then [a.recv.frame] else [])
      && (Ends(s, a) || Stopped(s.reader) ==> Stopped(t.reader))
      && (Stopped(t.reader) ==> Ends(s, a) || Stopped(s.reader) || ToldToStop(t.handler))
      && (ToldToStop(s.handler) ==> ToldToStop(t.handler))
  {
    match a
    case Handler(rpc) =>
      HandlerLeavesThreads(s, rpc);
      if ToldToStop(s.handler) {
        StaysTold(s, rpc);
      }
    case Writer(count) => WriterFrame(s, count);
    case Reader(recv) => assert Step(s, a) == ReaderStep(s, recv);
    case Puller => assert Step(s, a) == PullerStep(s);
  }

  lemma {:induction false} StreamObserved(schedule: seq<Action>)
    ensures StreamSeen(Run(Init, schedule), schedule)
    decreases |schedule|
  {
    if schedule != [] {
      var before, a := schedule[..|schedule| - 1], schedule[|schedule| - 1];
      assert schedule == before + [a];
      StreamObserved(before);
      RunSnoc(Init, before, a);
      StreamStep(Run(Init, before), a);
    }
  }

  lemma {:induction false} SocketObserved(schedule: seq<Action>)
    ensures SocketSeen(Run(Init, schedule), schedule)
    decreases |schedule|
  {
    if schedule != [] {
      var before, a := schedule[..|schedule| - 1], schedule[|schedule| - 1];
      assert schedule == before + [a];
      SocketObserved(before);
      RunSnoc(Init, before, a);
      SocketStep(Run(Init, before), a);
    }
  }

  lemma {:induction false} ClientObserved(schedule: seq<Action>)
    ensures ClientSeen(Run(Init, schedule), schedule)
    decreases |schedule|
  {
    if schedule != [] {
      var before, a := schedule[..|schedule| - 1], schedule[|schedule| - 1];
      assert schedule == before + [a];
      ClientObserved(before);
      RunSnoc(Init, before, a);
      ReachableInv(before);
      ClientStep(Run(Init, before), a);
    }
  }

  /** `handle` came back without an exception; `__exit__` may have started. */
  predicate HandleReturned(s: State) {
    match s.handler
    case Joining(_, join) => join.Returned?
    case Exiting(outcome, _) => !outcome.Raised?
    case _ => false
  }

  // ------------------------------------------------------------- responses

  lemma AcceptedIsYieldedPrefix(s: State)
    requires YieldInv(s)
    ensures UntilEmpty(s.log.yielded) == s.log.accepted + HandlerHand(s.handler)
  {
    var fed := s.log.accepted + HandlerHand(s.handler);
    UntilEmptyAll(fed);
    assert fed + [] == fed;
  }

  /** The frames of these events. */
  function FramesOf(events: seq<RpcEvent>): seq<Frame> {
    seq(|events|, i requires 0 <= i < |events| => FrameOf(events[i]))
  }

  /** In every interleaving in which `handle` returns, no event of the stream was
      an error, the frames sent are those of the stream before its first empty one
      (none, if there was nothing to forward), and with full sends the socket took
      exactly their bytes, although the writer's exit test may have read stale
      data. */
  lemma ExactDelivery(schedule: seq<Action>)
    ensures
      var s, frames := Run(Init, schedule), FramesOf(StreamEvents(schedule));
      HandleReturned(s) ==>
        && (forall e :: e in StreamEvents(schedule) ==> !RpcFails(e)) && !CallFailed(schedule)
        && s.log.yielded == frames && s.log.sent == UntilEmpty(frames)
        && (OnlyFullSends(schedule) ==> SocketBytes(schedule) == Flatten(UntilEmpty(frames)))
  {
    ReachableInv(schedule);
    StreamObserved(schedule);
    SocketObserved(schedule);
    var s := Run(Init, schedule);
    if HandleReturned(s) {
      AcceptedIsYieldedPrefix(s);
      assert s.responseQueue == [] && WriterHand(s.writer) == [];
      assert Yielding(StreamEvents(schedule)) == |StreamEvents(schedule)|;
      assert s.log.yielded == FramesOf(StreamEvents(schedule));
    }
  }

  /** Everything the protocol records over a run is what the worker, the client
      and the socket did in it: what is yielded is the frames of the stream before
      an error, `handle` raises exactly at an error of the RPC, what is received
      is what the client sent, and the reader stops exactly when the client ended,
      or when the handler told it to. */
  lemma RecordsAreTrue(schedule: seq<Action>)
    ensures
      var s := Run(Init, schedule);
      StreamSeen(s, schedule) && SocketSeen(s, schedule) && ClientSeen(s, schedule)
  {
    StreamObserved(schedule);
    SocketObserved(schedule);
    ClientObserved(schedule);
  }

  /** The writer's send loop: sends that come to the end of the buffer finish the
      frame, and no fewer do; nothing else moves the writer. */
  function Writers(counts: seq<nat>): seq<Action> {
    seq(|counts|, i requires 0 <= i < |counts| => Writer(counts[i]))
  }

  lemma {:induction false} SendLoop(s: State, counts: seq<nat>)
    requires s.writer.WSend? && s.writer.x < |s.writer.buf|
    requires C.Fits(|s.writer.buf| - s.writer.x, counts)
    requires forall i :: 0 <= i < |counts| ==> counts[i] <= |s.writer.buf|
    ensures
      var t := Run(s, Writers(counts));
      && t.writer.WReadSize? && t.log.sent == s.log.sent + [s.writer.buf]
      && t.log.wire == s.log.wire + C.Resent(s.writer.buf, counts)
    decreases |counts|
  {
    var t := Step(s, Writer(counts[0]));
    assert Writers(counts)[1..] == Writers(counts[1..]);
    if counts[0] < |s.writer.buf| - s.writer.x {
      SendLoop(t, counts[1..]);
      assert t.log.wire + C.Resent(s.writer.buf, counts[1..]) == s.log.wire + C.Resent(s.writer.buf, counts);
    } else {
      assert counts == [counts[0]];
      assert C.Resent(s.writer.buf, counts) == s.writer.buf[..counts[0]] + C.Resent(s.writer.buf, counts[1..]);
    }
  }

  lemma {:induction false} SendLoopGoesOn(s: State, counts: seq<nat>)
    requires s.writer.WSend? && s.writer.x + C.Total(counts) < |s.writer.buf|
    requires forall i :: 0 <= i < |counts| ==> 1 <= counts[i]
    ensures Run(s, Writers(counts)).writer == WSend(s.writer.buf, s.writer.x + C.Total(counts))
    ensures Run(s, Writers(counts)).log.sent == s.log.sent
    decreases |counts|
  {
    if counts != [] {
      assert Writers(counts)[1..] == Writers(counts[1..]);
      SendLoopGoesOn(Step(s, Writer(counts[0])), counts[1..]);
    }
  }

  lemma {:induction false} FlattenPrefix<T>(ss: seq<seq<T>>, tt: seq<seq<T>>)
    requires ss <= tt
    ensures Flatten(ss) <= Flatten(tt)
  {
    FlattenConcat(ss, tt[|ss|..]);
    assert ss + tt[|ss|..] == tt;
  }

  /** In every state, however `handle` ends: frames sent, the frame in the
      writer's hand and the queued frames are the frames accepted, and those are
      a prefix of what was yielded before the first empty frame. With full sends
      the local client has seen a prefix of the right byte stream. */
  lemma ResponseConservation(schedule: seq<Action>)
    ensures
      var s := Run(Init, schedule);
      && s.log.sent + WriterHand(s.writer) + s.responseQueue == s.log.accepted
      && s.log.accepted <= UntilEmpty(s.log.yielded)
      && (s.log.fullSends ==>
            s.log.wire == Flatten(s.log.sent) && s.log.wire <= Flatten(UntilEmpty(s.log.yielded)))
  {
    ReachableInv(schedule);
    var s := Run(Init, schedule);
    AcceptedIsYieldedPrefix(s);
    assert s.log.sent <= s.log.accepted <= UntilEmpty(s.log.yielded);
    FlattenPrefix(s.log.sent, UntilEmpty(s.log.yielded));
  }

  /** Once `__exit__` closes the socket no thread can touch it any more. */
  lemma NoUseAfterClose(schedule: seq<Action>, recv: RecvResult, count: nat)
    ensures
      var s := Run(Init, schedule);
      s.handler.Exiting? && (s.handler.exit.Close? || s.handler.exit.Closed?) ==>
        ReaderStep(s, recv) == s && WriterStep(s, count) == s
  {
    ReachableInv(schedule);
  }

  // -------------------------------------------------------------- draining

  /** Steps the writer may take for the queued frames: one look at the size and
      one get for each frame, and at most one send for each byte. */
  function SendCost(frames: seq<Frame>): nat {
    if frames == [] then 0 else 2 + |frames[0]| + SendCost(frames[1..])
  }

  function WriterMeasure(s: State): nat {
    match s.writer
    case WReadSize => SendCost(s.responseQueue) + 2
    case WReadEvent => 1
    case WGet => if s.responseQueue == [] then 3 else SendCost(s.responseQueue) + 1
    case WSend(buf, x) => SendCost(s.responseQueue) + 2 + (if x < |buf| then |buf| - x else 0)
    case WExited => 0
  }

  /** How many of the writer's actions in a schedule move it. */
  function WriterMoves(s: State, schedule: seq<Action>): nat
    decreases |schedule|
  {
    if schedule == [] then 0
    else
      var s' := Step(s, schedule[0]);
      (if schedule[0].Writer? && s' != s then 1 else 0) + WriterMoves(s', schedule[1..])
  }

  lemma WriterDescends(s: State, count: nat)
    requires ResponseInv(s) && s.doneWithResponses
    ensures WriterStep(s, count) != s ==> WriterMeasure(WriterStep(s, count)) < WriterMeasure(s)
    ensures WriterStep(s, count).doneWithResponses
  {
  }

  lemma OthersKeepMeasure(s: State, a: Action)
    requires ResponseInv(s) && s.doneWithResponses && !a.Writer?
    ensures WriterMeasure(Step(s, a)) == WriterMeasure(s)
    ensures Step(s, a).doneWithResponses
  {
    match a
    case Reader(recv) => ReaderFrame(s, recv);
    case Puller => PullerFrame(s);
    case Handler(rpc) =>
      if s.handler.Forwarding? {
        assert s.handler.forward.WaitSent?;
      }
  }

  lemma {:induction false} DrainFrom(s: State, schedule: seq<Action>)
    requires Inv(s) && s.doneWithResponses
    ensures WriterMoves(s, schedule) + WriterMeasure(Run(s, schedule)) <= WriterMeasure(s)
    decreases |schedule|
  {
    if schedule != [] {
      var a := schedule[0];
      if a.Writer? {
        WriterDescends(s, a.count);
      } else {
        OthersKeepMeasure(s, a);
      }
      StepKeepsInv(s, a);
      DrainFrom(Step(s, a), schedule[1..]);
    }
  }

  lemma MeasureZeroIff(s: State)
    ensures WriterMeasure(s) == 0 <==> s.writer.WExited?
    ensures s.writer.WSend? && s.writer.x < |s.writer.buf| ==> WriterStep(s, FullCount(s)) != s
    ensures !s.writer.WSend? && !s.writer.WExited? ==> WriterStep(s, FullCount(s)) != s
  {
  }

  /** After `done_with_responses` is set, whatever else runs, the writer takes no
      more steps than its measure; and it is never blocked, so it exits. */
  lemma Draining(before: seq<Action>, after: seq<Action>)
    requires Run(Init, before).doneWithResponses
    ensures
      var s := Run(Init, before);
      var t := Run(s, after);
      && WriterMoves(s, after) + WriterMeasure(t) <= WriterMeasure(s)
      && (WriterMeasure(t) == 0 <==> t.writer.WExited?)
      && (!t.writer.WExited? ==> WriterStep(t, FullCount(t)) != t)
  {
    ReachableInv(before);
    var s := Run(Init, before);
    DrainFrom(s, after);
    RunKeepsInv(s, after);
    MeasureZeroIff(Run(s, after));
  }

  /** A send that takes everything; ignored at the other program points. */
  function FullCount(s: State): nat {
    if s.writer.WSend? then |s.writer.buf| else 0
  }

  /** The writer leaves its loop only at an event read after the set, and what
      it leaves behind is what was put after its last read of an empty queue. */
  lemma StaleExit(schedule: seq<Action>, count: nat)
    ensures
      var s := Run(Init, schedule);
      && (!s.writer.WExited? && WriterStep(s, count).writer.WExited? ==>
            s.writer.WReadEvent? && s.doneWithResponses)
      && (s.writer.WExited? ==>
            && s.log.atEmptyRead <= |s.log.accepted|
            && s.log.sent == s.log.accepted[..s.log.atEmptyRead]
            && s.responseQueue == s.log.accepted[s.log.atEmptyRead..]
            && (s.responseQueue != [] <==> s.log.atEmptyRead < |s.log.accepted|))
  {
    ReachableInv(schedule);
  }

  // ------------------------------------------- when handle cannot come back

  /** The handler waits for a queue that nobody will empty: the writer has gone,
      or is about to go on the strength of an old look at the queue. */
  predicate Stranded(s: State) {
    && s.handler == Forwarding(WaitSent)
    && |s.responseQueue| > 0
    && (s.writer.WExited? || s.writer.WReadEvent?)
  }

  lemma {:induction false} StrandedForever(s: State, schedule: seq<Action>)
    requires ResponseInv(s) && Stranded(s)
    ensures Stranded(Run(s, schedule))
    decreases |schedule|
  {
    if schedule != [] {
      var a := schedule[0];
      match a {
        case Reader(recv) => ReaderFrame(s, recv);
        case Puller => PullerFrame(s);
        case Writer(count) =>
        case Handler(rpc) =>
      }
      assert ResponseInv(Step(s, a)) && Stranded(Step(s, a));
      StrandedForever(Step(s, a), schedule[1..]);
    }
  }

  /** The response event is set, and the writer will yet empty the queue if the
      handler waits for it: it has neither gone nor is about to go without. */
  predicate Drains(s: State) {
    Inv(s) && s.doneWithResponses && !Stranded(s)
  }

  lemma WriterDrains(s: State)
    requires Drains(s) && !s.writer.WExited?
    ensures
      var t := WriterStep(s, FullCount(s));
      && Drains(t) && WriterMeasure(t) < WriterMeasure(s)
      && t.handler == s.handler && t.reader == s.reader
  {
    WriterDescends(s, FullCount(s));
    MeasureZeroIff(s);
    WriterKeepsInv(s, FullCount(s));
    WriterFrame(s, FullCount(s));
  }

  /** Lets the writer run to its end with full sends. */
  lemma {:induction false} WriterRunsOut(s: State) returns (schedule: seq<Action>)
    requires Drains(s)
    ensures
      var t := Run(s, schedule);
      Drains(t) && t.handler == s.handler && t.reader == s.reader && t.writer.WExited?
    decreases WriterMeasure(s)
  {
    if s.writer.WExited? {
      schedule := [];
    } else {
      var a := Writer(FullCount(s));
      WriterDrains(s);
      var rest := WriterRunsOut(Step(s, a));
      schedule := [a] + rest;
      Unroll(s, a, rest);
    }
  }

  /** Lets the reader finish: its client resets the connection. */
  lemma {:induction false} ReaderRunsOut(s: State) returns (schedule: seq<Action>)
    ensures
      var t := Run(s, schedule);
      && t.reader.RExited? && t.handler == s.handler && t.writer == s.writer && t.responseQueue == s.responseQueue
    decreases match s.reader
              case RPut(_) => 4 case RCheckEvent => 3 case RRecv => 2 case RFinally => 1 case RExited => 0
  {
    if s.reader.RExited? {
      schedule := [];
    } else {
      var rest := ReaderRunsOut(Step(s, Reader(RecvRaised)));
      schedule := [Reader(RecvRaised)] + rest;
      assert schedule[1..] == rest;
    }
  }

  lemma HandlerReturns(s: State) returns (schedule: seq<Action>)
    requires s.handler == Forwarding(WaitSent) && |s.responseQueue| == 0
    requires s.writer.WExited? && s.reader.RExited?
    ensures Run(s, schedule).handler == Joining(true, Returned)
  {
    var a := Handler(StreamEnd);
    var s1 := Step(s, a);
    var s2 := Step(s1, a);
    var s3 := Step(s2, a);
    schedule := [a, a, a];
    assert Run(s3, []) == s3 && Run(s2, [a]) == s3 by { assert [a][1..] == []; }
    assert Run(s1, [a, a]) == s3 by { assert [a, a][1..] == [a]; }
    assert schedule[1..] == [a, a];
  }

  /** `handle` waiting for its responses can still return exactly if it is not
      stranded: the frames it put are gone or the writer will look again. */
  lemma CanReturnIff(schedule: seq<Action>)
    requires Run(Init, schedule).handler == Forwarding(WaitSent)
    ensures
      var s := Run(Init, schedule);
      (exists after :: Run(s, after).handler == Joining(true, Returned)) <==> !Stranded(s)
  {
    ReachableInv(schedule);
    var s := Run(Init, schedule);
    if Stranded(s) {
      forall after ensures Run(s, after).handler != Joining(true, Returned) {
        StrandedForever(s, after);
      }
    } else {
      var first := WriterRunsOut(s);
      var second := ReaderRunsOut(Run(s, first));
      var third := HandlerReturns(Run(Run(s, first), second));
      RunConcat(s, first, second);
      RunConcat(s, first + second, third);
      assert Run(s, first + second + third).handler == Joining(true, Returned);
    }
  }

  /** The connection is closed: `__exit__` has come to its end. */
  predicate IsClosed(s: State) {
    s.handler.Exiting? && s.handler.exit.Closed?
  }

  /** How far the handler is from having set the response event, once the reader
      has finished and its RPC fails. */
  function StepsToSet(s: State): nat {
    match s.handler
    case Deciding(decide) => (match decide case CheckQueue => 9 case CheckEvent => 8 case FinalCheck => 7)
    case Forwarding(forward) =>
      (match forward
       case Put(_) => 6
       case Call => 5
       case Next => 5
       case SetResponses => if s.writer.WReadEvent? then 2 else 1
       case WaitSent => 0)
    case Declining(decline) => (match decline case ElseRequests => 6 case ElseResponses => 5)
    case Joining(_, _) => 0
    case Exiting(_, exit) => (match exit case ExitRequests => 4 case ExitResponses => 3 case _ => 0)
  }

  /** A writer that is about to trust an old look at the queue reads the event
      before it is set; otherwise the handler moves. */
  function NextToSet(s: State): Action {
    if s.handler == Forwarding(SetResponses) && s.writer.WReadEvent? then Writer(0) else Handler(RpcRaised)
  }

  lemma NextToSetDescends(s: State)
    requires RequestInv(s) && ResponseInv(s) && StaleInv(s) && s.reader.RExited? && !s.doneWithResponses
    ensures StepsToSet(Step(s, NextToSet(s))) < StepsToSet(s)
    ensures Step(s, NextToSet(s)).reader.RExited? && !Stranded(Step(s, NextToSet(s)))
  {
  }

  /** Lets the handler come to where the response event is set. */
  lemma {:induction false} HandlerSets(s: State) returns (schedule: seq<Action>)
    requires Inv(s) && s.reader.RExited? && !Stranded(s)
    ensures Drains(Run(s, schedule)) && Run(s, schedule).reader.RExited?
    decreases StepsToSet(s)
  {
    if s.doneWithResponses {
      schedule := [];
    } else {
      var a := NextToSet(s);
      NextToSetDescends(s);
      StepKeepsInv(s, a);
      var rest := HandlerSets(Step(s, a));
      schedule := [a] + rest;
      Unroll(s, a, rest);
    }
  }

  /** How far the handler is from the end once both threads have exited. */
  function StepsToClosed(s: State): nat {
    match s.handler
    case Joining(_, join) => (match join case JoinWriter => 9 case JoinReader => 8 case Returned => 7)
    case Exiting(_, exit) =>
      (match exit
       case ExitRequests => 6 case ExitResponses => 5 case ExitJoinReader => 4
       case ExitJoinWriter => 3 case Close => 2 case Closed => 1)
    case _ => 10
  }

  lemma HandlerDescends(s: State)
    requires HandlerSetResponses(s.handler) && !Stranded(s) && !IsClosed(s)
    requires s.reader.RExited? && s.writer.WExited?
    ensures
      var t := HandlerStep(s, RpcRaised);
      && StepsToClosed(t) < StepsToClosed(s) && !Stranded(t)
      && t.reader == s.reader && t.writer == s.writer
  {
  }

  lemma {:induction false} HandlerCloses(s: State) returns (schedule: seq<Action>)
    requires Drains(s) && s.reader.RExited? && s.writer.WExited?
    ensures IsClosed(Run(s, schedule))
    decreases StepsToClosed(s)
  {
    if IsClosed(s) {
      schedule := [];
    } else {
      HandlerDescends(s);
      HandlerKeepsInv(s, RpcRaised);
      var t := HandlerStep(s, RpcRaised);
      assert t.doneWithResponses;
      var rest := HandlerCloses(t);
      schedule := [Handler(RpcRaised)] + rest;
      Unroll(s, Handler(RpcRaised), rest);
    }
  }

  /** How many actions in a schedule move the writer or the handler. */
  function ClosingMoves(s: State, schedule: seq<Action>): nat
    decreases |schedule|
  {
    if schedule == [] then 0
    else
      var s' := Step(s, schedule[0]);
      (if (schedule[0].Writer? || schedule[0].Handler?) && s' != s then 1 else 0) + ClosingMoves(s', schedule[1..])
  }

  function ClosingMeasure(s: State): nat {
    WriterMeasure(s) + StepsToClosed(s)
  }

  lemma HandlerClosesOn(s: State, rpc: RpcEvent)
    requires ResponseInv(s) && s.doneWithResponses
    ensures StepsToClosed(HandlerStep(s, rpc)) <= StepsToClosed(s)
    ensures HandlerStep(s, rpc) != s ==> StepsToClosed(HandlerStep(s, rpc)) < StepsToClosed(s)
  {
  }

  lemma ClosingDescends(s: State, a: Action)
    requires Inv(s) && s.doneWithResponses
    ensures
      var t := Step(s, a);
      && t.doneWithResponses
      && ClosingMeasure(t) + (if (a.Writer? || a.Handler?) && t != s then 1 else 0) <= ClosingMeasure(s)
  {
    if a.Writer? {
      WriterDescends(s, a.count);
      WriterFrame(s, a.count);
    } else {
      OthersKeepMeasure(s, a);
      match a
      case Reader(recv) => ReaderFrame(s, recv);
      case Puller => PullerFrame(s);
      case Handler(rpc) => HandlerClosesOn(s, rpc);
    }
  }

  lemma {:induction false} ClosesFrom(s: State, schedule: seq<Action>)
    requires Inv(s) && s.doneWithResponses
    ensures ClosingMoves(s, schedule) + ClosingMeasure(Run(s, schedule)) <= ClosingMeasure(s)
    decreases |schedule|
  {
    if schedule != [] {
      ClosingDescends(s, schedule[0]);
      StepKeepsInv(s, schedule[0]);
      ClosesFrom(Step(s, schedule[0]), schedule[1..]);
    }
  }

  lemma NothingLeftToMove(s: State, rpc: RpcEvent)
    requires ResponseInv(s) && s.doneWithResponses && s.reader.RExited?
    requires WriterStep(s, FullCount(s)) == s && HandlerStep(s, rpc) == s
    ensures IsClosed(s) || Stranded(s)
  {
    MeasureZeroIff(s);
  }

  /** Once the response event is set, whatever else runs, the writer and the
      handler together take no more steps than their measure; and when the reader
      has gone and neither of them can move, the connection is closed or stranded. */
  lemma ClosingIsBounded(before: seq<Action>, after: seq<Action>, rpc: RpcEvent)
    requires Run(Init, before).doneWithResponses
    ensures
      var s := Run(Init, before);
      var t := Run(s, after);
      && ClosingMoves(s, after) + ClosingMeasure(t) <= ClosingMeasure(s)
      && (t.reader.RExited? && WriterStep(t, FullCount(t)) == t && HandlerStep(t, rpc) == t ==>
            IsClosed(t) || Stranded(t))
  {
    ReachableInv(before);
    var s := Run(Init, before);
    ClosesFrom(s, after);
    var t := Run(s, after);
    assert ResponseInv(t) by { RunKeepsInv(s, after); }
    assert t.doneWithResponses by { EventStays(s, after); }
    if t.reader.RExited? && WriterStep(t, FullCount(t)) == t && HandlerStep(t, rpc) == t {
      NothingLeftToMove(t, rpc);
    }
  }

  lemma {:induction false} EventStays(s: State, schedule: seq<Action>)
    requires Inv(s) && s.doneWithResponses
    ensures Run(s, schedule).doneWithResponses
    decreases |schedule|
  {
    if schedule != [] {
      ClosingDescends(s, schedule[0]);
      StepKeepsInv(s, schedule[0]);
      EventStays(Step(s, schedule[0]), schedule[1..]);
    }
  }

  /** In every reachable state the connection can still be closed exactly if it is
      not stranded: that wait is the only deadlock of the four threads. */
  lemma CanCloseIff(schedule: seq<Action>)
    ensures
      var s := Run(Init, schedule);
      (exists after :: IsClosed(Run(s, after))) <==> !Stranded(s)
  {
    ReachableInv(schedule);
    var s := Run(Init, schedule);
    if Stranded(s) {
      forall after ensures !IsClosed(Run(s, after)) {
        StrandedForever(s, after);
      }
    } else {
      var first := ReaderRunsOut(s);
      RunKeepsInv(s, first);
      var s1 := Run(s, first);
      var second := HandlerSets(s1);
      var s2 := Run(s1, second);
      var third := WriterRunsOut(s2);
      var fourth := HandlerCloses(Run(s2, third));
      RunConcat(s, first, second);
      RunConcat(s, first + second, third);
      RunConcat(s, first + second + third, fourth);
      assert IsClosed(Run(s, first + second + third + fourth));
    }
  }

  /** Runs the first action by hand. */
  lemma Unroll(s: State, a: Action, rest: seq<Action>)
    ensures Run(s, [a] + rest) == Run(Step(s, a), rest)
  {
    assert ([a] + rest)[1..] == rest;
  }

  lemma PutOne(s: State, frame: Frame, rest: seq<Action>) returns (t: State)
    requires frame != [] && s.handler == Forwarding(Next)
    ensures Run(s, [Handler(Response(0, frame))] + ([Handler(StreamEnd)] + rest)) == Run(t, rest)
    ensures t.handler == s.handler && t.writer == s.writer
    ensures t.responseQueue == s.responseQueue + [frame] && t.log.yielded == s.log.yielded + [frame]
  {
    var a, b := Handler(Response(0, frame)), Handler(StreamEnd);
    var s1 := Step(s, a);
    assert s1.handler == Forwarding(Put(frame));
    t := Step(s1, b);
    Unroll(s, a, [b] + rest);
    Unroll(s1, b, rest);
  }

  /** Lets the handler put these frames. */
  function Puts(frames: seq<Frame>): seq<Action> {
    if frames == [] then [] else [Handler(Response(0, frames[0]))] + ([Handler(StreamEnd)] + Puts(frames[1..]))
  }

  /** The handler puts the frames while the writer stands between its two reads. */
  lemma {:induction false} PutBehindWriter(s: State, frames: seq<Frame>)
    requires NonEmpty(frames) && s.handler == Forwarding(Next)
    ensures
      var t := Run(s, Puts(frames));
      && t.handler == s.handler && t.writer == s.writer
      && t.responseQueue == s.responseQueue + frames && t.log.yielded == s.log.yielded + frames
    decreases |frames|
  {
    if frames != [] {
      var t := PutOne(s, frames[0], Puts(frames[1..]));
      PutBehindWriter(t, frames[1..]);
      assert (s.responseQueue + [frames[0]]) + frames[1..] == s.responseQueue + frames;
      assert (s.log.yielded + [frames[0]]) + frames[1..] == s.log.yielded + frames;
    }
  }

  /** A request comes in and the RPC starts, while the writer stands between its
      two reads. */
  lemma Started(request: Frame) returns (schedule: seq<Action>)
    requires 1 <= |request| <= FRAME_SIZE
    ensures
      var s := Run(Init, schedule);
      && s.handler == Forwarding(Next) && s.writer.WReadEvent?
      && s.log.yielded == [] && s.responseQueue == []
  {
    var r, h := Reader(Received(request)), Handler(StreamEnd);
    var s1 := Step(Step(Step(Init, r), r), r);
    assert s1.requestQueue == [request];
    var s2 := Step(Step(Step(s1, h), h), h);
    assert s2.handler == Forwarding(Next);
    RunThree(Init, r, r, r);
    RunThree(s1, h, h, h);
    RunConcat(Init, [r, r, r], [h, h, h]);
    schedule := [r, r, r] + [h, h, h] + [Writer(0)];
    RunSnoc(Init, [r, r, r] + [h, h, h], Writer(0));
  }

  /** A request, and frames put between the writer's two reads: the frames stay in
      the queue and `handle` never returns. */
  lemma StrandedIsReachable(request: Frame, frames: seq<Frame>) returns (schedule: seq<Action>)
    requires 1 <= |request| <= FRAME_SIZE && NonEmpty(frames) && frames != []
    ensures Stranded(Run(Init, schedule)) && Run(Init, schedule).log.yielded == frames + [[]]
  {
    var h := Handler(StreamEnd);
    var first := Started(request);
    var s1 := Run(Init, first);
    PutBehindWriter(s1, frames);
    RunConcat(Init, first, Puts(frames));
    var before := first + Puts(frames);
    var s2 := Run(Init, before);
    assert s2.responseQueue == frames && s2.log.yielded == frames;
    schedule := before + [h] + [h];
    RunSnoc(Init, before, h);
    RunSnoc(Init, before + [h], h);
  }

  /** Which streams can hang `handle`: for the frames `forward_to_port` yields
      before its empty one, some interleaving leaves `handle` waiting forever
      exactly if there is a frame at all. */
  lemma StreamCanHangIff(frames: seq<Frame>)
    requires NonEmpty(frames)
    ensures
      (exists schedule :: Stranded(Run(Init, schedule)) && Run(Init, schedule).log.yielded == frames + [[]])
      <==> frames != []
  {
    if frames == [] {
      forall schedule | Stranded(Run(Init, schedule)) ensures Run(Init, schedule).log.yielded != frames + [[]] {
        ReachableInv(schedule);
        assert |Run(Init, schedule).log.accepted| > 0;
      }
    } else {
      var schedule := StrandedIsReachable([0], frames);
    }
  }

  lemma RunThree(s: State, a: Action, b: Action, c: Action)
    ensures Run(s, [a, b, c]) == Step(Step(Step(s, a), b), c)
  {
    Unroll(s, a, [b, c]);
    Unroll(Step(s, a), b, [c]);
    Unroll(Step(Step(s, a), b), c, []);
    assert [a] + [b, c] == [a, b, c] && [b] + [c] == [b, c] && [c] + [] == [c];
  }

  /** A writer that has not read the set event gets the next response when it asks:
      at once, or after looking at the size, or at the event. */
  lemma WriterTakesNext(s: State)
    requires |s.responseQueue| > 0
    requires s.writer.WReadSize? || s.writer.WGet? || (s.writer.WReadEvent? && !s.doneWithResponses)
    ensures
      var t := Run(s, if s.writer.WGet? then [Writer(0)] else [Writer(0), Writer(0)]);
      t.writer == WSend(s.responseQueue[0], 0) && t.responseQueue == s.responseQueue[1..]
  {
    var w := Writer(0);
    assert [w] + [w] == [w, w] && [w] + [] == [w];
    Unroll(s, w, []);
    Unroll(s, w, [w]);
    Unroll(Step(s, w), w, []);
  }

  /** How far `__exit__` has come. */
  function ExitRank(pc: ExitPc): nat {
    match pc
    case ExitRequests => 0
    case ExitResponses => 1
    case ExitJoinReader => 2
    case ExitJoinWriter => 3
    case Close => 4
    case Closed => 5
  }

  /** Every way out of `handle` goes through the whole of `__exit__`, in its order:
      both events are set, both threads joined, and then the socket is closed. A
      normal way out comes after both joins of `handle`, and whether it forwarded
      is known. */
  lemma ExitRunsInOrder(s: State, rpc: RpcEvent)
    ensures
      var t := HandlerStep(s, rpc);
      && (s.handler.Exiting? ==>
            && t.handler.Exiting? && t.handler.outcome == s.handler.outcome
            && ExitRank(s.handler.exit) <= ExitRank(t.handler.exit) <= ExitRank(s.handler.exit) + 1
            && (s.handler.exit.ExitRequests? ==> t.doneWithRequests)
            && (s.handler.exit.ExitResponses? ==> t.doneWithResponses))
      && (!s.handler.Exiting? && t.handler.Exiting? ==>
            && t.handler.exit.ExitRequests?
            && (t.handler.outcome.Raised? <==> s.handler.Forwarding?)
            && (t.handler.outcome.Forwarded? ==> s.handler == Joining(true, Returned))
            && (t.handler.outcome.Declined? ==> s.handler == Joining(false, Returned)))
  {
    if s.handler.Forwarding? {
      HandlerStreamStep(s, rpc);
    }
  }

  // -------------------------------------------------------------- requests

  /** In every state the RPC has pulled a prefix of what the client sent, and
      the rest is queued or in the reader's hand, in order. */
  lemma RequestConservation(schedule: seq<Action>)
    ensures
      var s := Run(Init, schedule);
      && s.log.pulled + s.requestQueue + ReaderHand(s.reader) == s.log.received
      && s.log.pulled <= s.log.received
  {
    ReachableInv(schedule);
  }

  /** As long as the event is not set, a started RPC gets the next request when it
      asks: at once, or after looking at the event. */
  lemma PullerServes(schedule: seq<Action>)
    ensures
      var s := Run(Init, schedule);
      !s.puller.PNotStarted? && !s.doneWithRequests && s.requestQueue != [] ==>
        var t := Run(s, if s.puller.PGet? then [Puller] else [Puller, Puller]);
        t.log.pulled == s.log.pulled + [s.requestQueue[0]] && t.requestQueue == s.requestQueue[1..]
  {
    ReachableInv(schedule);
    var s := Run(Init, schedule);
    assert [Puller] + [Puller] == [Puller, Puller] && [Puller] + [] == [Puller];
    Unroll(s, Puller, []);
    Unroll(s, Puller, [Puller]);
    Unroll(Step(s, Puller), Puller, []);
  }

  /** Once the event is set, the reader takes at most the frame it is waiting for. */
  lemma {:induction false} ReaderStops(s: State, schedule: seq<Action>)
    requires s.doneWithRequests
    ensures |Run(s, schedule).log.received| <= |s.log.received| + if s.reader.RRecv? then 1 else 0
    decreases |schedule|
  {
    if schedule != [] {
      var a := schedule[0];
      match a {
        case Reader(recv) =>
        case Writer(count) => WriterFrame(s, count);
        case Puller =>
        case Handler(rpc) =>
          HandlerLeavesThreads(s, rpc);
          HandlerKeepsLag(s, rpc);
      }
      ReaderStops(Step(s, a), schedule[1..]);
    }
  }

  /** `_has_requests` answers False exactly when the client ended without
      sending a byte: once it has answered, not forwarding means that the reader
      has finished with nothing received. */
  lemma HasRequestsDecides(schedule: seq<Action>)
    ensures
      var s := Run(Init, schedule);
      !s.handler.Deciding? ==>
        && (!DidForward(s.handler) <==> s.reader.RExited? && ClientFrames(schedule) == [])
        && (!DidForward(s.handler) ==> ClientEnded(schedule))
  {
    ClientObserved(schedule);
    ReachableInv(schedule);
  }

  lemma FirstPull(s: State)
    requires s.handler == Forwarding(Call) && !s.doneWithRequests && |s.requestQueue| > 0 && s.log.pulled == []
    ensures Run(s, [Handler(StreamEnd), Puller, Puller]).log.pulled == [s.requestQueue[0]]
  {
    var s1 := Step(s, Handler(StreamEnd));
    assert s1 == s.(handler := Forwarding(Next), puller := PCheckEvent);
    var s2 := Step(s1, Puller);
    assert s2 == s1.(puller := PGet);
    assert Step(s2, Puller).log.pulled == [] + [s.requestQueue[0]];
    RunThree(s, Handler(StreamEnd), Puller, Puller);
  }

  /** When the RPC is about to start there is a request to forward; some request
      can still be pulled exactly if the event is not set yet. A client that
      stops sending before that loses every byte it sent. */
  lemma RequestsForwardedIff(schedule: seq<Action>)
    requires Run(Init, schedule).handler == Forwarding(Call)
    ensures
      var s := Run(Init, schedule);
      && s.requestQueue != []
      && ((exists after :: Run(s, after).log.pulled != []) <==> !s.doneWithRequests)
  {
    var s := Run(Init, schedule);
    assert RequestInv(s) by { ReachableInv(schedule); }
    if s.doneWithRequests {
      forall after ensures Run(s, after).log.pulled == [] {
        LagNeverShrinks(s, after);
      }
    } else {
      FirstPull(s);
    }
  }

  /** The frames received that the RPC can no longer get once the event is set:
      the puller takes one more if it was already on its way to the queue. */
  function Lag(s: State): int {
    |s.requestQueue| + |ReaderHand(s.reader)| - if s.puller.PGet? then 1 else 0
  }

  lemma {:induction false} LagNeverShrinks(s: State, schedule: seq<Action>)
    requires s.doneWithRequests
    ensures Lag(s) <= Lag(Run(s, schedule)) && s.log.pulled <= Run(s, schedule).log.pulled
    ensures |Run(s, schedule).log.pulled| <= |s.log.pulled| + if s.puller.PGet? then 1 else 0
    decreases |schedule|
  {
    if schedule != [] {
      var t := Step(s, schedule[0]);
      LagOfStep(s, schedule[0]);
      LagNeverShrinks(t, schedule[1..]);
    }
  }

  /** No frame comes back within reach of the RPC, and none is got without the
      puller having been on its way. */
  predicate LagKept(s: State, t: State) {
    && t.doneWithRequests && Lag(s) <= Lag(t) && s.log.pulled <= t.log.pulled
    && |t.log.pulled| + (if t.puller.PGet? then 1 else 0) <= |s.log.pulled| + if s.puller.PGet? then 1 else 0
  }

  lemma HandlerKeepsLag(s: State, rpc: RpcEvent)
    requires s.doneWithRequests
    ensures LagKept(s, HandlerStep(s, rpc))
  {
  }

  lemma LagOfStep(s: State, a: Action)
    requires s.doneWithRequests
    ensures LagKept(s, Step(s, a))
  {
    match a
    case Reader(recv) => assert LagKept(s, ReaderStep(s, recv));
    case Writer(count) => WriterFrame(s, count);
    case Handler(rpc) => HandlerKeepsLag(s, rpc);
    case Puller => assert LagKept(s, PullerStep(s));
  }

  /** Lets the RPC get the frame that is left, if it still can. */
  lemma TakesPending(s: State) returns (after: seq<Action>)
    requires RequestLedger(s) && s.doneWithRequests && Lag(s) <= 0
    ensures Run(s, after).log.pulled == Run(s, after).log.received
  {
    var r := Reader(RecvRaised);
    if s.requestQueue == [] && s.reader.RPut? {
      after := [r] + [Puller];
      Unroll(s, r, [Puller]);
      Unroll(Step(s, r), Puller, []);
      assert [Puller] + [] == [Puller];
      assert Step(s, r).requestQueue == [s.reader.frame];
    } else if s.requestQueue == [] {
      after := [];
    } else {
      assert s.requestQueue == [s.requestQueue[0]];
      after := [Puller] + [];
      Unroll(s, Puller, []);
    }
  }

  /** Once the request event is set, the RPC can still get everything the client
      sent exactly if nothing is left, or one frame that the puller is already on
      its way to take; in every continuation it gets at most that one. */
  lemma TailForwardedIff(schedule: seq<Action>)
    requires Run(Init, schedule).doneWithRequests
    ensures
      var s := Run(Init, schedule);
      var pending := s.requestQueue + ReaderHand(s.reader);
      && ((exists after :: Run(s, after).log.pulled == Run(s, after).log.received) <==>
            pending == [] || (|pending| == 1 && s.puller.PGet?))
      && forall after :: |Run(s, after).log.pulled| <= |s.log.pulled| + if s.puller.PGet? then 1 else 0
  {
    var s := Run(Init, schedule);
    assert RequestLedger(s) by { ReachableInv(schedule); }
    forall after
      ensures |Run(s, after).log.pulled| <= |s.log.pulled| + if s.puller.PGet? then 1 else 0
      ensures Run(s, after).log.pulled == Run(s, after).log.received ==> Lag(s) <= 0
    {
      LagNeverShrinks(s, after);
      RunConcat(Init, schedule, after);
      assert RequestLedger(Run(s, after)) by { ReachableInv(schedule + after); }
    }
    if Lag(s) <= 0 {
      var after := TakesPending(s);
    }
  }

  /** The client can send each of these in one piece. */
  predicate Sendable(frames: seq<Frame>) {
    forall i :: 0 <= i < |frames| ==> 1 <= |frames[i]| <= FRAME_SIZE
  }

  /** Lets the reader take these frames. */
  function Reads(frames: seq<Frame>): seq<Action> {
    if frames == [] then []
    else
      var r := Reader(Received(frames[0]));
      [r, r, r] + Reads(frames[1..])
  }

  lemma {:induction false} ReadsQueue(s: State, frames: seq<Frame>)
    requires Sendable(frames) && s.reader.RCheckEvent? && !s.doneWithRequests
    ensures
      Run(s, Reads(frames)) ==
        s.(requestQueue := s.requestQueue + frames, log := s.log.(received := s.log.received + frames))
    decreases |frames|
  {
    if frames == [] {
      assert s.requestQueue + frames == s.requestQueue && s.log.received + frames == s.log.received;
    } else {
      var r := Reader(Received(frames[0]));
      var t := s.(requestQueue := s.requestQueue + [frames[0]],
                  log := s.log.(received := s.log.received + [frames[0]]));
      assert Step(Step(Step(s, r), r), r) == t;
      RunThree(s, r, r, r);
      RunConcat(s, [r, r, r], Reads(frames[1..]));
      ReadsQueue(t, frames[1..]);
      assert (s.requestQueue + [frames[0]]) + frames[1..] == s.requestQueue + frames;
      assert (s.log.received + [frames[0]]) + frames[1..] == s.log.received + frames;
    }
  }

  /** Lets the puller take so many frames. */
  function Pulls(n: nat): seq<Action> {
    if n == 0 then [] else [Puller] + ([Puller] + Pulls(n - 1))
  }

  lemma {:induction false} PullsTake(s: State, n: nat)
    requires s.puller.PCheckEvent? && !s.doneWithRequests && n <= |s.requestQueue|
    ensures
      Run(s, Pulls(n)) ==
        s.(requestQueue := s.requestQueue[n..], log := s.log.(pulled := s.log.pulled + s.requestQueue[..n]))
    decreases n
  {
    if n == 0 {
      assert s.log.pulled + s.requestQueue[..0] == s.log.pulled;
    } else {
      var q := s.requestQueue;
      var t := s.(requestQueue := q[1..], log := s.log.(pulled := s.log.pulled + [q[0]]));
      assert Step(Step(s, Puller), Puller) == t;
      Unroll(s, Puller, [Puller] + Pulls(n - 1));
      Unroll(Step(s, Puller), Puller, Pulls(n - 1));
      PullsTake(t, n - 1);
      assert q[1..][n - 1..] == q[n..];
      assert (s.log.pulled + [q[0]]) + q[1..][..n - 1] == s.log.pulled + q[..n];
    }
  }

  /** The client has sent these frames and ended, the RPC has the first `n` of
      them, and no continuation gets it another. */
  ghost predicate StuckAt(s: State, frames: seq<Frame>, n: nat)
    requires n <= |frames|
  {
    && s.doneWithRequests && s.log.received == frames && s.log.pulled == frames[..n]
    && forall after :: Run(s, after).log.pulled == frames[..n]
  }

  /** From the queued frames on: the RPC starts and takes some, the client ends. */
  lemma EndsAfterPulls(s: State, n: nat) returns (schedule: seq<Action>)
    requires s.handler == Deciding(CheckEvent) && s.reader.RCheckEvent? && !s.doneWithRequests
    requires 0 < |s.requestQueue| && n <= |s.requestQueue| && s.log.pulled == []
    ensures
      var t := Run(s, schedule);
      && t.doneWithRequests && t.log.received == s.log.received && t.log.pulled == s.requestQueue[..n]
      && !t.puller.PGet?
  {
    var h, e := Handler(StreamEnd), Reader(Received([]));
    var s1 := Step(Step(Step(s, h), h), h);
    assert s1 == s.(handler := Forwarding(Next), puller := PCheckEvent);
    PullsTake(s1, n);
    var s2 := Run(s1, Pulls(n));
    assert Step(Step(Step(s2, e), e), e) == s2.(reader := RExited, doneWithRequests := true);
    RunThree(s, h, h, h);
    RunThree(s2, e, e, e);
    RunConcat(s, [h, h, h], Pulls(n));
    RunConcat(s, [h, h, h] + Pulls(n), [e, e, e]);
    schedule := [h, h, h] + Pulls(n) + [e, e, e];
  }

  /** Whatever a client sends before it ends, any part of it at the end can be
      lost: for every number of frames some run forwards exactly the first so many
      and never another. */
  lemma AnyTailCanBeLost(frames: seq<Frame>, n: nat)
    requires Sendable(frames) && frames != [] && n <= |frames|
    ensures exists schedule :: StuckAt(Run(Init, schedule), frames, n)
  {
    ReadsQueue(Init, frames);
    var s := Run(Init, Reads(frames));
    assert s.requestQueue == frames && s.log.received == frames;
    var rest := EndsAfterPulls(s, n);
    RunConcat(Init, Reads(frames), rest);
    var t := Run(Init, Reads(frames) + rest);
    forall after ensures Run(t, after).log.pulled == frames[..n] {
      LagNeverShrinks(t, after);
    }
    assert StuckAt(t, frames, n);
  }

  /** Such a client exists: it sends one frame and shuts down its side. */
  lemma HalfCloseLosesRequests(request: Frame)
    requires 1 <= |request| <= FRAME_SIZE
    ensures exists schedule ::
              var s := Run(Init, schedule);
              s.handler == Forwarding(Call) && s.doneWithRequests && s.log.received == [request]
  {
    var r, e, h := Reader(Received(request)), Reader(Received([])), Handler(StreamEnd);
    var s1 := Step(Step(Step(Init, r), r), r);
    var s2 := Step(Step(Step(s1, e), e), e);
    assert s2.doneWithRequests && s2.requestQueue == [request];
    var s3 := Step(Step(Step(s2, h), h), Puller);
    assert s3.handler == Forwarding(Call);
    RunThree(Init, r, r, r);
    RunThree(s1, e, e, e);
    RunThree(s2, h, h, Puller);
    RunConcat(Init, [r, r, r], [e, e, e]);
    RunConcat(Init, [r, r, r] + [e, e, e], [h, h, Puller]);
    assert Run(Init, [r, r, r] + [e, e, e] + [h, h, Puller]) == s3;
  }
}
