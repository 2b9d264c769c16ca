/** One forwarded connection: the protocol between the four threads that share a
    `Connection` of rx/daemon/port_forwarding/client_socket.py.

    Every `qsize()`, `empty()`, `is_set()`, `put`, `get`, `set`, `recv`, `send`
    and `join` is one atomic step of one thread. A schedule is any finite
    sequence of actions; an action names the thread that moves and what its
    environment answers. An action the thread cannot take (it has exited, it is
    blocked in a join, the socket cannot give that answer) changes nothing, so a
    statement about every schedule is a statement about every interleaving. */
module ClientSocket {
  import opened Prelude

  /** The most `recv` returns at once. */
  const FRAME_SIZE := 1024

  /** The thread in `recv_from_local`. */
  datatype ReaderPc = RCheckEvent | RRecv | RPut(frame: Frame) | RFinally | RExited

  /** The thread in `remote_to_local`; `x` counts the bytes `send` reported. */
  datatype WriterPc = WReadSize | WReadEvent | WGet | WSend(buf: Frame, x: nat) | WExited

  /** The gRPC thread that iterates `_pull_from_req_queue`. */
  datatype PullerPc = PNotStarted | PCheckEvent | PGet | PExited

  datatype DecidePc = CheckEvent | CheckQueue | FinalCheck
  datatype ForwardPc = Call | Next | Put(frame: Frame) | SetResponses | WaitSent
  datatype DeclinePc = ElseRequests | ElseResponses
  datatype JoinPc = JoinWriter | JoinReader | Returned
  datatype ExitPc = ExitRequests | ExitResponses | ExitJoinReader | ExitJoinWriter | Close | Closed
  datatype Outcome = Forwarded | Declined | Raised

  /** The thread in `handle` and then in `__exit__`: `_has_requests`, the loop
      over the responses up to the wait for the writer, the else branch, the
      joins, and `__exit__` with the way `handle` ended. */
  datatype HandlerPc =
    | Deciding(decide: DecidePc)
    | Forwarding(forward: ForwardPc)
    | Declining(decline: DeclinePc)
    | Joining(forwarded: bool, join: JoinPc)
    | Exiting(outcome: Outcome, exit: ExitPc)

  /** What `recv` does: some bytes (none at end of stream) or an exception. */
  datatype RecvResult = Received(frame: Frame) | RecvRaised

  /** What the PortForward stream does next under `forward_to_port`. */
  datatype RpcEvent = Response(code: int, frame: Frame) | StreamEnd | RpcRaised

  datatype Action =
    | Reader(recv: RecvResult)
    | Writer(count: nat)
    | Handler(rpc: RpcEvent)
    | Puller

  /** What each party saw: `received` the non-empty frames `recv` returned,
      `pulled` those the RPC took, `yielded` everything `forward_to_port`
      produced, `accepted` the frames put on the response queue, `sent` the
      frames whose send loop ended and `wire` the bytes the local socket took.
      `fullSends` says that every `send` so far took its whole argument,
      `atEmptyRead` how many frames had been put when the writer last read an
      empty queue. */
  datatype Log = Log(
    received: seq<Frame>,
    pulled: seq<Frame>,
    yielded: seq<Frame>,
    accepted: seq<Frame>,
    sent: seq<Frame>,
    wire: seq<Byte>,
    fullSends: bool,
    atEmptyRead: nat)

  datatype State = State(
    requestQueue: seq<Frame>,
    doneWithRequests: bool,
    responseQueue: seq<Frame>,
    doneWithResponses: bool,
    reader: ReaderPc,
    writer: WriterPc,
    handler: HandlerPc,
    puller: PullerPc,
    log: Log)

  /** Both events are cleared and both threads started. */
  const Init := State([], false, [], false, RCheckEvent, WReadSize, Deciding(CheckEvent), PNotStarted,
                      Log([], [], [], [], [], [], true, 0))

  // ---------------------------------------------------------------- steps

  function ReaderStep(s: State, recv: RecvResult): State {
    match s.reader
    case RCheckEvent => s.(reader := if s.doneWithRequests then RFinally else RRecv)
    case RRecv =>
      if recv.RecvRaised? || recv.frame == [] then s.(reader := RFinally)
      else if |recv.frame| > FRAME_SIZE then s
      else s.(reader := RPut(recv.frame), log := s.log.(received := s.log.received + [recv.frame]))
    case RPut(frame) => s.(reader := RCheckEvent, requestQueue := s.requestQueue + [frame])
    case RFinally => s.(reader := RExited, doneWithRequests := true)
    case RExited => s
  }

  function WriterStep(s: State, count: nat): State {
    match s.writer
    case WReadSize =>
      if |s.responseQueue| > 0 then s.(writer := WGet)
      else s.(writer := WReadEvent, log := s.log.(atEmptyRead := |s.log.accepted|))
    case WReadEvent => s.(writer := if s.doneWithResponses then WExited else WGet)
    case WGet =>
      if |s.responseQueue| == 0 then s.(writer := WReadSize)
      else s.(writer := WSend(s.responseQueue[0], 0), responseQueue := s.responseQueue[1..])
    case WSend(buf, x) =>
      if !(1 <= count <= |buf|) then s
      else
        // The code resends from the start of the buffer, not from x.
        var log := s.log.(wire := s.log.wire + buf[..count], fullSends := s.log.fullSends && count == |buf|);
        if x + count < |buf| then s.(writer := WSend(buf, x + count), log := log)
        else s.(writer := WReadSize, log := log.(sent := log.sent + [buf]))
    case WExited => s
  }

  /** `_has_requests`. */
  function DecideStep(s: State, pc: DecidePc): State {
    match pc
    case CheckEvent => s.(handler := Deciding(if s.doneWithRequests then FinalCheck else CheckQueue))
    case CheckQueue => s.(handler := if |s.requestQueue| > 0 then Forwarding(Call) else Deciding(CheckEvent))
    case FinalCheck => s.(handler := if |s.requestQueue| > 0 then Forwarding(Call) else Declining(ElseRequests))
  }

  /** `forward_to_port` and the loop over its frames; an exception leaves for `__exit__`. */
  function ForwardStep(s: State, pc: ForwardPc, rpc: RpcEvent): State {
    match pc
    case Call =>
      if rpc.RpcRaised? then s.(handler := Exiting(Raised, ExitRequests))
      else s.(handler := Forwarding(Next), puller := PCheckEvent)
    case Next =>
      if rpc.RpcRaised? || (rpc.Response? && rpc.code != 0) then s.(handler := Exiting(Raised, ExitRequests))
      else
        // forward_to_port ends every stream with an empty frame.
        var frame := if rpc.StreamEnd? then [] else rpc.frame;
        s.(handler := Forwarding(if frame == [] then SetResponses else Put(frame)),
           log := s.log.(yielded := s.log.yielded + [frame]))
    case Put(frame) =>
      s.(handler := Forwarding(Next),
         responseQueue := s.responseQueue + [frame],
         log := s.log.(accepted := s.log.accepted + [frame]))
    case SetResponses => s.(handler := Forwarding(WaitSent), doneWithResponses := true)
    case WaitSent => if |s.responseQueue| > 0 then s else s.(handler := Joining(true, JoinWriter))
  }

  function DeclineStep(s: State, pc: DeclinePc): State {
    match pc
    case ElseRequests => s.(handler := Declining(ElseResponses), doneWithRequests := true)
    case ElseResponses => s.(handler := Joining(false, JoinWriter), doneWithResponses := true)
  }

  function JoinStep(s: State, forwarded: bool, pc: JoinPc): State {
    match pc
    case JoinWriter => if s.writer.WExited? then s.(handler := Joining(forwarded, JoinReader)) else s
    case JoinReader => if s.reader.RExited? then s.(handler := Joining(forwarded, Returned)) else s
    case Returned => s.(handler := Exiting(if forwarded then Forwarded else Declined, ExitRequests))
  }

  function ExitStep(s: State, outcome: Outcome, pc: ExitPc): State {
    match pc
    case ExitRequests => s.(handler := Exiting(outcome, ExitResponses), doneWithRequests := true)
    case ExitResponses => s.(handler := Exiting(outcome, ExitJoinReader), doneWithResponses := true)
    case ExitJoinReader => if s.reader.RExited? then s.(handler := Exiting(outcome, ExitJoinWriter)) else s
    case ExitJoinWriter => if s.writer.WExited? then s.(handler := Exiting(outcome, Close)) else s
    case Close => s.(handler := Exiting(outcome, Closed))
    case Closed => s
  }

  function HandlerStep(s: State, rpc: RpcEvent): State {
    match s.handler
    case Deciding(pc) => DecideStep(s, pc)
    case Forwarding(pc) => ForwardStep(s, pc, rpc)
    case Declining(pc) => DeclineStep(s, pc)
    case Joining(forwarded, pc) => JoinStep(s, forwarded, pc)
    case Exiting(outcome, pc) => ExitStep(s, outcome, pc)
  }

  function PullerStep(s: State): State {
    match s.puller
    case PCheckEvent => s.(puller := if s.doneWithRequests then PExited else PGet)
    case PGet =>
      if |s.requestQueue| == 0 then s.(puller := PCheckEvent)
      else s.(puller := PCheckEvent,
              requestQueue := s.requestQueue[1..],
              log := s.log.(pulled := s.log.pulled + [s.requestQueue[0]]))
    case PNotStarted => s
    case PExited => s
  }

  function Step(s: State, a: Action): State {
    match a
    case Reader(recv) => ReaderStep(s, recv)
    case Writer(count) => WriterStep(s, count)
    case Handler(rpc) => HandlerStep(s, rpc)
    case Puller => PullerStep(s)
  }

  function Run(s: State, schedule: seq<Action>): State
    decreases |schedule|
  {
    if schedule == [] then s else Run(Step(s, schedule[0]), schedule[1..])
  }

  lemma {:induction false} RunConcat(s: State, first: seq<Action>, second: seq<Action>)
    ensures Run(s, first + second) == Run(Run(s, first), second)
    decreases |first|
  {
    if first == [] {
      assert first + second == second;
    } else {
      assert (first + second)[1..] == first[1..] + second;
      RunConcat(Step(s, first[0]), first[1..], second);
    }
  }

  lemma RunSnoc(s: State, schedule: seq<Action>, a: Action)
    ensures Run(s, schedule + [a]) == Step(Run(s, schedule), a)
  {
    RunConcat(s, schedule, [a]);
    assert Run(Step(Run(s, schedule), a), [][..]) == Step(Run(s, schedule), a);
  }

  // ------------------------------------------------------------ invariants

  function ReaderHand(pc: ReaderPc): seq<Frame> {
    if pc.RPut? then [pc.frame] else []
  }

  function WriterHand(pc: WriterPc): seq<Frame> {
    if pc.WSend? then [pc.buf] else []
  }

  function HandlerHand(pc: HandlerPc): seq<Frame> {
    if pc.Forwarding? && pc.forward.Put? then [pc.forward.frame] else []
  }

  /** The frames before the first empty one. */
  function UntilEmpty(frames: seq<Frame>): seq<Frame> {
    if frames == [] || frames[0] == [] then [] else [frames[0]] + UntilEmpty(frames[1..])
  }

  predicate NonEmpty(frames: seq<Frame>) {
    forall i :: 0 <= i < |frames| ==> |frames[i]| > 0
  }

  lemma {:induction false} UntilEmptyAll(frames: seq<Frame>)
    requires NonEmpty(frames)
    ensures UntilEmpty(frames) == frames
    ensures UntilEmpty(frames + [[]]) == frames
  {
    if frames != [] {
      assert (frames + [[]])[1..] == frames[1..] + [[]];
      UntilEmptyAll(frames[1..]);
    }
  }

  /** Every frame the client sent is with the RPC, in the queue or in the
      reader's hand, in that order. */
  predicate RequestLedger(s: State) {
    s.log.received == s.log.pulled + s.requestQueue + ReaderHand(s.reader)
  }

  /** Every accepted frame is on the socket, in the writer's hand or in the
      queue, in that order. */
  predicate ResponseLedger(s: State) {
    s.log.accepted == s.log.sent + WriterHand(s.writer) + s.responseQueue
  }

  /** `handle` took the forwarding branch. */
  predicate DidForward(pc: HandlerPc) {
    match pc
    case Deciding(_) => false
    case Forwarding(_) => true
    case Declining(_) => false
    case Joining(forwarded, _) => forwarded
    case Exiting(outcome, _) => !outcome.Declined?
  }

  /** The handler itself has set the request event. */
  predicate HandlerSetRequests(pc: HandlerPc) {
    match pc
    case Deciding(_) => false
    case Forwarding(_) => false
    case Declining(decline) => decline.ElseResponses?
    case Joining(forwarded, _) => !forwarded
    case Exiting(outcome, exit) => outcome.Declined? || !exit.ExitRequests?
  }

  /** The handler has set the response event; only it does. */
  predicate HandlerSetResponses(pc: HandlerPc) {
    match pc
    case Deciding(_) => false
    case Forwarding(forward) => forward.WaitSent?
    case Declining(_) => false
    case Joining(_, _) => true
    case Exiting(outcome, exit) => !outcome.Raised? || !(exit.ExitRequests? || exit.ExitResponses?)
  }

  /** The loop over the frames came to an empty one. */
  predicate StreamEnded(pc: HandlerPc) {
    match pc
    case Deciding(_) => false
    case Forwarding(forward) => forward.SetResponses? || forward.WaitSent?
    case Declining(_) => false
    case Joining(forwarded, _) => forwarded
    case Exiting(outcome, _) => outcome.Forwarded?
  }

  /** `handle` is past its own wait for the response queue to drain. */
  predicate PastWait(pc: HandlerPc) {
    pc.Joining? || (pc.Exiting? && !pc.outcome.Raised?)
  }

  /** The request event is set by the reader after its last put, or by the
      handler once it has stopped asking; nothing is pulled before forwarding,
      and declining means that the client ended without sending a byte. */
  predicate RequestInv(s: State) {
    && (s.doneWithRequests <==> s.reader.RExited? || HandlerSetRequests(s.handler))
    && (s.handler.Deciding? && s.handler.decide.FinalCheck? ==> s.reader.RExited?)
    && (!DidForward(s.handler) || s.handler == Forwarding(Call) ==> s.puller.PNotStarted?)
    && (s.puller.PNotStarted? ==> |s.log.pulled| == 0)
    && (s.puller.PExited? ==> s.doneWithRequests)
    && (DidForward(s.handler) ==> |s.log.received| > 0)
    && (s.handler == Forwarding(Call) ==> |s.requestQueue| > 0)
    && (!DidForward(s.handler) && !s.handler.Deciding? ==> s.reader.RExited? && |s.log.received| == 0)
  }

  /** Only the handler puts responses, and it never puts after the set. */
  predicate ResponseInv(s: State) {
    && (s.doneWithResponses <==> HandlerSetResponses(s.handler))
    && (!DidForward(s.handler) ==> |s.log.accepted| == 0 && |s.log.yielded| == 0)
    && (PastWait(s.handler) ==> |s.responseQueue| == 0)
    && (s.writer.WSend? ==> s.writer.x < |s.writer.buf|)
  }

  /** The response queue is fed with what `forward_to_port` yields before its
      first empty frame, and with nothing else. */
  predicate YieldInv(s: State) {
    && NonEmpty(s.log.accepted)
    && (s.handler.Forwarding? && s.handler.forward.Put? ==> |s.handler.forward.frame| > 0)
    && (s.handler.Forwarding? && s.handler.forward.Call? ==> |s.log.accepted| == 0)
    && s.log.yielded == s.log.accepted + HandlerHand(s.handler) + (if StreamEnded(s.handler) then [[]] else [])
  }

  /** What the bytes on the socket are while no send was short. */
  predicate WireInv(s: State) {
    s.log.fullSends ==> s.log.wire == Flatten(s.log.sent) && (s.writer.WSend? ==> s.writer.x == 0)
  }

  /** What the writer's last look at the empty queue is worth: every frame put
      by then is on the socket. */
  predicate StaleInv(s: State) {
    && (s.writer.WReadEvent? || s.writer.WExited? ==> s.log.atEmptyRead == |s.log.sent|)
    && (s.writer.WExited? ==> s.doneWithResponses)
  }

  /** Joins are passed only by threads that have exited. */
  predicate JoinInv(s: State) {
    match s.handler
    case Joining(_, join) =>
      (!join.JoinWriter? ==> s.writer.WExited?) && (join.Returned? ==> s.reader.RExited?)
    case Exiting(outcome, exit) =>
      && (!outcome.Raised? ==> s.writer.WExited? && s.reader.RExited?)
      && (exit.ExitJoinWriter? || exit.Close? || exit.Closed? ==> s.reader.RExited?)
      && (exit.Close? || exit.Closed? ==> s.writer.WExited?)
    case _ => true
  }

  predicate RequestSide(s: State) {
    RequestLedger(s) && RequestInv(s)
  }

  predicate ResponseSide(s: State) {
    ResponseLedger(s) && ResponseInv(s) && YieldInv(s) && WireInv(s) && StaleInv(s)
  }

  predicate Inv(s: State) {
    RequestSide(s) && ResponseSide(s) && JoinInv(s)
  }

  /** The request side looks only at these parts of the state. */
  predicate SameRequestSide(s: State, t: State) {
    && s.requestQueue == t.requestQueue && s.doneWithRequests == t.doneWithRequests
    && s.reader == t.reader && s.puller == t.puller && s.handler == t.handler
    && s.log.received == t.log.received && s.log.pulled == t.log.pulled
  }

  /** The response side looks only at these parts of the state. */
  predicate SameResponseSide(s: State, t: State) {
    && s.responseQueue == t.responseQueue && s.doneWithResponses == t.doneWithResponses
    && s.writer == t.writer && s.handler == t.handler
    && s.log.yielded == t.log.yielded && s.log.accepted == t.log.accepted && s.log.sent == t.log.sent
    && s.log.wire == t.log.wire && s.log.fullSends == t.log.fullSends && s.log.atEmptyRead == t.log.atEmptyRead
  }

  lemma RequestSideFrame(s: State, t: State)
    requires RequestSide(s) && SameRequestSide(s, t)
    ensures RequestSide(t)
  {
  }

  lemma ResponseSideFrame(s: State, t: State)
    requires ResponseSide(s) && SameResponseSide(s, t)
    ensures ResponseSide(t)
  {
  }

  lemma ReaderFrame(s: State, recv: RecvResult)
    ensures SameResponseSide(s, ReaderStep(s, recv))
  {
  }

  lemma PullerFrame(s: State)
    ensures SameResponseSide(s, PullerStep(s))
  {
  }

  lemma WriterFrame(s: State, count: nat)
    ensures SameRequestSide(s, WriterStep(s, count))
  {
  }

  lemma ReaderKeepsRequestSide(s: State, recv: RecvResult)
    requires RequestSide(s)
    ensures RequestSide(ReaderStep(s, recv))
  {
  }

  lemma PullerKeepsRequestSide(s: State)
    requires RequestSide(s)
    ensures RequestSide(PullerStep(s))
  {
    if s.puller.PGet? && |s.requestQueue| > 0 {
      assert s.requestQueue == [s.requestQueue[0]] + s.requestQueue[1..];
    }
  }

  lemma WriterKeepsLedger(s: State, count: nat)
    requires ResponseLedger(s)
    ensures ResponseLedger(WriterStep(s, count))
  {
    if s.writer.WGet? && |s.responseQueue| > 0 {
      assert s.responseQueue == [s.responseQueue[0]] + s.responseQueue[1..];
    }
  }

  lemma WriterKeepsResponseInv(s: State, count: nat)
    requires ResponseInv(s) && YieldInv(s) && ResponseLedger(s)
    ensures ResponseInv(WriterStep(s, count))
  {
    if s.writer.WGet? && |s.responseQueue| > 0 {
      assert s.log.accepted[|s.log.sent|] == s.responseQueue[0];
    }
  }

  lemma YieldInvFrame(s: State, t: State)
    requires YieldInv(s) && t.handler == s.handler
    requires t.log.accepted == s.log.accepted && t.log.yielded == s.log.yielded
    ensures YieldInv(t)
  {
  }

  lemma WriterYieldFrame(s: State, count: nat)
    ensures
      var t := WriterStep(s, count);
      t.handler == s.handler && t.log.accepted == s.log.accepted && t.log.yielded == s.log.yielded
  {
  }

  lemma WriterKeepsWireInv(s: State, count: nat)
    requires WireInv(s)
    ensures WireInv(WriterStep(s, count))
  {
    if s.writer.WSend? {
      FlattenSnoc(s.log.sent, s.writer.buf);
      assert s.writer.buf[..|s.writer.buf|] == s.writer.buf;
    }
  }

  lemma WriterKeepsStaleInv(s: State, count: nat)
    requires StaleInv(s) && ResponseLedger(s)
    ensures StaleInv(WriterStep(s, count))
  {
  }

  lemma ReaderKeepsJoins(s: State, recv: RecvResult)
    requires JoinInv(s)
    ensures JoinInv(ReaderStep(s, recv))
  {
  }

  lemma WriterKeepsJoins(s: State, count: nat)
    requires JoinInv(s)
    ensures JoinInv(WriterStep(s, count))
  {
  }

  lemma PullerKeepsJoins(s: State)
    requires JoinInv(s)
    ensures JoinInv(PullerStep(s))
  {
  }

  lemma DecideKeepsInv(s: State, pc: DecidePc)
    requires Inv(s) && s.handler == Deciding(pc)
    ensures Inv(DecideStep(s, pc))
  {
  }

  lemma DeclineKeepsInv(s: State, pc: DeclinePc)
    requires Inv(s) && s.handler == Declining(pc)
    ensures Inv(DeclineStep(s, pc))
  {
  }

  lemma JoinKeepsInv(s: State, forwarded: bool, pc: JoinPc)
    requires Inv(s) && s.handler == Joining(forwarded, pc)
    ensures Inv(JoinStep(s, forwarded, pc))
  {
  }

  lemma ExitKeepsRequestSide(s: State, outcome: Outcome, pc: ExitPc)
    requires RequestSide(s) && JoinInv(s) && s.handler == Exiting(outcome, pc)
    ensures RequestSide(ExitStep(s, outcome, pc))
  {
  }

  lemma ExitKeepsResponseSide(s: State, outcome: Outcome, pc: ExitPc)
    requires ResponseSide(s) && s.handler == Exiting(outcome, pc)
    ensures ResponseSide(ExitStep(s, outcome, pc))
  {
  }

  lemma ExitKeepsJoins(s: State, outcome: Outcome, pc: ExitPc)
    requires JoinInv(s) && s.handler == Exiting(outcome, pc)
    ensures JoinInv(ExitStep(s, outcome, pc))
  {
  }

  lemma ForwardKeepsRequestSide(s: State, pc: ForwardPc, rpc: RpcEvent)
    requires RequestSide(s) && s.handler == Forwarding(pc)
    ensures RequestSide(ForwardStep(s, pc, rpc))
    ensures JoinInv(ForwardStep(s, pc, rpc))
  {
  }

  lemma ForwardKeepsLedger(s: State, pc: ForwardPc, rpc: RpcEvent)
    requires ResponseLedger(s) && StaleInv(s) && WireInv(s) && s.handler == Forwarding(pc)
    ensures ResponseLedger(ForwardStep(s, pc, rpc))
    ensures StaleInv(ForwardStep(s, pc, rpc))
    ensures WireInv(ForwardStep(s, pc, rpc))
  {
  }

  lemma ForwardKeepsResponseInv(s: State, pc: ForwardPc, rpc: RpcEvent)
    requires ResponseInv(s) && s.handler == Forwarding(pc)
    ensures ResponseInv(ForwardStep(s, pc, rpc))
  {
  }

  lemma NextKeepsYieldInv(s: State, rpc: RpcEvent)
    requires YieldInv(s) && s.handler == Forwarding(Next)
    ensures YieldInv(ForwardStep(s, Next, rpc))
  {
    assert HandlerHand(s.handler) == [] && s.log.yielded == s.log.accepted;
  }

  lemma PutKeepsYieldInv(s: State, frame: Frame, rpc: RpcEvent)
    requires YieldInv(s) && s.handler == Forwarding(Put(frame))
    ensures YieldInv(ForwardStep(s, Put(frame), rpc))
  {
    assert s.log.yielded == s.log.accepted + [frame];
  }

  lemma ForwardKeepsYieldInv(s: State, pc: ForwardPc, rpc: RpcEvent)
    requires YieldInv(s) && s.handler == Forwarding(pc)
    ensures YieldInv(ForwardStep(s, pc, rpc))
  {
    if pc.Next? {
      NextKeepsYieldInv(s, rpc);
    } else if pc.Put? {
      PutKeepsYieldInv(s, pc.frame, rpc);
    } else {
      assert ForwardStep(s, pc, rpc).log == s.log;
    }
  }

  lemma ReaderKeepsInv(s: State, recv: RecvResult)
    requires Inv(s)
    ensures Inv(ReaderStep(s, recv))
  {
    ReaderKeepsRequestSide(s, recv);
    ReaderFrame(s, recv);
    ResponseSideFrame(s, ReaderStep(s, recv));
    ReaderKeepsJoins(s, recv);
  }

  lemma WriterKeepsInv(s: State, count: nat)
    requires Inv(s)
    ensures Inv(WriterStep(s, count))
  {
    WriterFrame(s, count);
    RequestSideFrame(s, WriterStep(s, count));
    WriterKeepsLedger(s, count);
    WriterKeepsResponseInv(s, count);
    WriterYieldFrame(s, count);
    YieldInvFrame(s, WriterStep(s, count));
    WriterKeepsWireInv(s, count);
    WriterKeepsStaleInv(s, count);
    WriterKeepsJoins(s, count);
  }

  lemma PullerKeepsInv(s: State)
    requires Inv(s)
    ensures Inv(PullerStep(s))
  {
    PullerKeepsRequestSide(s);
    PullerFrame(s);
    ResponseSideFrame(s, PullerStep(s));
    PullerKeepsJoins(s);
  }

  lemma HandlerKeepsInv(s: State, rpc: RpcEvent)
    requires Inv(s)
    ensures Inv(HandlerStep(s, rpc))
  {
    match s.handler
    case Deciding(pc) => DecideKeepsInv(s, pc);
    case Forwarding(pc) =>
      ForwardKeepsRequestSide(s, pc, rpc);
      ForwardKeepsLedger(s, pc, rpc);
      ForwardKeepsResponseInv(s, pc, rpc);
      ForwardKeepsYieldInv(s, pc, rpc);
    case Declining(pc) => DeclineKeepsInv(s, pc);
    case Joining(forwarded, pc) => JoinKeepsInv(s, forwarded, pc);
    case Exiting(outcome, pc) =>
      ExitKeepsRequestSide(s, outcome, pc);
      ExitKeepsResponseSide(s, outcome, pc);
      ExitKeepsJoins(s, outcome, pc);
  }

  lemma StepKeepsInv(s: State, a: Action)
    requires Inv(s)
    ensures Inv(Step(s, a))
  {
    match a
    case Reader(recv) => ReaderKeepsInv(s, recv);
    case Writer(count) => WriterKeepsInv(s, count);
    case Handler(rpc) => HandlerKeepsInv(s, rpc);
    case Puller => PullerKeepsInv(s);
  }

  lemma {:induction false} RunKeepsInv(s: State, schedule: seq<Action>)
    requires Inv(s)
    ensures Inv(Run(s, schedule))
    decreases |schedule|
  {
    if schedule != [] {
      StepKeepsInv(s, schedule[0]);
      RunKeepsInv(Step(s, schedule[0]), schedule[1..]);
    }
  }

  lemma ReachableInv(schedule: seq<Action>)
    ensures Inv(Run(Init, schedule))
  {
    RunKeepsInv(Init, schedule);
  }
}
