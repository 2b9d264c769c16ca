/** The `Connection` object itself: its queues, events and threads as mutable
    state, one method per thread. A call performs the thread's next atomic
    statement and is proved against the step functions of `ClientSocket`. */
module ConnectionObject {
  import opened Prelude
  import opened ClientSocket

  class Connection {
    var requestQueue: seq<Frame>
    var doneWithRequests: bool
    var responseQueue: seq<Frame>
    var doneWithResponses: bool
    var reader: ReaderPc
    var writer: WriterPc
    var handler: HandlerPc
    var puller: PullerPc
    ghost var log: Log

    ghost function View(): State
      reads this
    {
      State(requestQueue, doneWithRequests, responseQueue, doneWithResponses, reader, writer, handler, puller, log)
    }

    constructor ()
      ensures View() == Init
    {
      requestQueue, doneWithRequests := [], false;
      responseQueue, doneWithResponses := [], false;
      reader, writer := RCheckEvent, WReadSize;
      handler, puller := Deciding(CheckEvent), PNotStarted;
      log := Init.log;
    }

    method RecvFromLocal(recv: RecvResult)
      modifies this
      ensures View() == ReaderStep(old(View()), recv)
    {
      match reader
      case RCheckEvent =>
        reader := if doneWithRequests then RFinally else RRecv;
      case RRecv =>
        if recv.RecvRaised? || recv.frame == [] {
          reader := RFinally;
        } else if |recv.frame| <= FRAME_SIZE {
          reader := RPut(recv.frame);
          log := log.(received := log.received + [recv.frame]);
        }
      case RPut(frame) =>
        requestQueue := requestQueue + [frame];
        reader := RCheckEvent;
      case RFinally =>
        doneWithRequests := true;
        reader := RExited;
      case RExited =>
    }

    method RemoteToLocal(count: nat)
      modifies this
      ensures View() == WriterStep(old(View()), count)
    {
      match writer
      case WReadSize =>
        if |responseQueue| > 0 {
          writer := WGet;
        } else {
          writer := WReadEvent;
          log := log.(atEmptyRead := |log.accepted|);
        }
      case WReadEvent =>
        writer := if doneWithResponses then WExited else WGet;
      case WGet =>
        if |responseQueue| == 0 {
          writer := WReadSize;
        } else {
          writer := WSend(responseQueue[0], 0);
          responseQueue := responseQueue[1..];
        }
      case WSend(buf, x) =>
        if 1 <= count <= |buf| {
          log := log.(wire := log.wire + buf[..count], fullSends := log.fullSends && count == |buf|);
          if x + count < |buf| {
            writer := WSend(buf, x + count);
          } else {
            writer := WReadSize;
            log := log.(sent := log.sent + [buf]);
          }
        }
      case WExited =>
    }

    method PullFromReqQueue()
      modifies this
      ensures View() == PullerStep(old(View()))
    {
      match puller
      case PCheckEvent =>
        puller := if doneWithRequests then PExited else PGet;
      case PGet =>
        puller := PCheckEvent;
        if |requestQueue| > 0 {
          log := log.(pulled := log.pulled + [requestQueue[0]]);
          requestQueue := requestQueue[1..];
        }
      case PNotStarted =>
      case PExited =>
    }

    method HasRequests(pc: DecidePc)
      requires handler == Deciding(pc)
      modifies this
      ensures View() == DecideStep(old(View()), pc)
    {
      match pc
      case CheckEvent =>
        handler := Deciding(if doneWithRequests then FinalCheck else CheckQueue);
      case CheckQueue =>
        handler := if |requestQueue| > 0 then Forwarding(Call) else Deciding(CheckEvent);
      case FinalCheck =>
        handler := if |requestQueue| > 0 then Forwarding(Call) else Declining(ElseRequests);
    }

    method Forward(pc: ForwardPc, rpc: RpcEvent)
      requires handler == Forwarding(pc)
      modifies this
      ensures View() == ForwardStep(old(View()), pc, rpc)
    {
      match pc
      case Call =>
        if rpc.RpcRaised? {
          handler := Exiting(Raised, ExitRequests);
        } else {
          handler, puller := Forwarding(Next), PCheckEvent;
        }
      case Next =>
        if rpc.RpcRaised? || (rpc.Response? && rpc.code != 0) {
          handler := Exiting(Raised, ExitRequests);
        } else {
          var frame := if rpc.StreamEnd? then [] else rpc.frame;
          log := log.(yielded := log.yielded + [frame]);
          handler := Forwarding(if frame == [] then SetResponses else Put(frame));
        }
      case Put(frame) =>
        responseQueue := responseQueue + [frame];
        log := log.(accepted := log.accepted + [frame]);
        handler := Forwarding(Next);
      case SetResponses =>
        doneWithResponses := true;
        handler := Forwarding(WaitSent);
      case WaitSent =>
        if |responseQueue| == 0 {
          handler := Joining(true, JoinWriter);
        }
    }

    method Decline(pc: DeclinePc)
      requires handler == Declining(pc)
      modifies this
      ensures View() == DeclineStep(old(View()), pc)
    {
      match pc
      case ElseRequests =>
        doneWithRequests := true;
        handler := Declining(ElseResponses);
      case ElseResponses =>
        doneWithResponses := true;
        handler := Joining(false, JoinWriter);
    }

    method Join(forwarded: bool, pc: JoinPc)
      requires handler == Joining(forwarded, pc)
      modifies this
      ensures View() == JoinStep(old(View()), forwarded, pc)
    {
      match pc
      case JoinWriter =>
        if writer.WExited? {
          handler := Joining(forwarded, JoinReader);
        }
      case JoinReader =>
        if reader.RExited? {
          handler := Joining(forwarded, Returned);
        }
      case Returned =>
        handler := Exiting(if forwarded then Forwarded else Declined, ExitRequests);
    }

    method Exit(outcome: Outcome, pc: ExitPc)
      requires handler == Exiting(outcome, pc)
      modifies this
      ensures View() == ExitStep(old(View()), outcome, pc)
    {
      match pc
      case ExitRequests =>
        doneWithRequests := true;
        handler := Exiting(outcome, ExitResponses);
      case ExitResponses =>
        doneWithResponses := true;
        handler := Exiting(outcome, ExitJoinReader);
      case ExitJoinReader =>
        if reader.RExited? {
          handler := Exiting(outcome, ExitJoinWriter);
        }
      case ExitJoinWriter =>
        if writer.WExited? {
          handler := Exiting(outcome, Close);
        }
      case Close =>
        handler := Exiting(outcome, Closed);
      case Closed =>
    }

    /** Gives the threads their turns in the order of the schedule. The state it
        ends in is the one every lemma about `Run` speaks of. */
    method Interleave(schedule: seq<Action>)
      modifies this
      ensures View() == Run(old(View()), schedule)
      ensures Inv(old(View())) ==> Inv(View())
    {
      ghost var start := View();
      assert schedule[..0] == [];
      for i := 0 to |schedule|
        invariant View() == Run(start, schedule[..i])
      {
        match schedule[i] {
          case Reader(recv) => RecvFromLocal(recv);
          case Writer(count) => RemoteToLocal(count);
          case Puller => PullFromReqQueue();
          case Handler(rpc) =>
            match handler
            case Deciding(pc) => HasRequests(pc);
            case Forwarding(pc) => Forward(pc, rpc);
            case Declining(pc) => Decline(pc);
            case Joining(forwarded, pc) => Join(forwarded, pc);
            case Exiting(outcome, pc) => Exit(outcome, pc);
        }
        RunSnoc(start, schedule[..i], schedule[i]);
        assert schedule[..i + 1] == schedule[..i] + [schedule[i]];
      }
      assert schedule[..|schedule|] == schedule;
      if Inv(start) {
        RunKeepsInv(start, schedule);
      }
    }
  }

  // -------------------------------------------------------- the send loop

  /** The local socket: `send` takes a non-empty part of its argument, as much
      as the next entry of `counts` says. */
  class LocalSocket {
    var wire: seq<Byte>
    var counts: seq<nat>

    constructor (counts: seq<nat>)
      ensures wire == [] && this.counts == counts
    {
      wire, this.counts := [], counts;
    }

    method Send(data: Frame) returns (count: nat)
      requires counts != [] && 1 <= counts[0] <= |data|
      modifies this
      ensures count == old(counts[0])
      ensures wire == old(wire) + data[..count]
      ensures counts == old(counts)[1..]
    {
      count := counts[0];
      wire := wire + data[..count];
      counts := counts[1..];
    }
  }

  function Total(counts: seq<nat>): nat {
    if counts == [] then 0 else counts[0] + Total(counts[1..])
  }

  /** What `send` may report to a loop that stops once it has seen n bytes. */
  predicate Fits(n: nat, counts: seq<nat>) {
    if counts == [] then n == 0
    else n > 0 && 1 <= counts[0] && (if counts[0] < n then Fits(n - counts[0], counts[1..]) else |counts| == 1)
  }

  /** Every send starts again at the beginning of the buffer. */
  function Resent(buf: Frame, counts: seq<nat>): seq<Byte>
    requires forall i :: 0 <= i < |counts| ==> counts[i] <= |buf|
  {
    if counts == [] then [] else buf[..counts[0]] + Resent(buf, counts[1..])
  }

  lemma {:induction false} ResentSnoc(buf: Frame, counts: seq<nat>, count: nat)
    requires forall i :: 0 <= i < |counts| ==> counts[i] <= |buf|
    requires count <= |buf|
    ensures Resent(buf, counts + [count]) == Resent(buf, counts) + buf[..count]
  {
    if counts == [] {
      assert Resent(buf, [count]) == buf[..count] + Resent(buf, []);
    } else {
      assert (counts + [count])[1..] == counts[1..] + [count];
      ResentSnoc(buf, counts[1..], count);
    }
  }

  /** The loop at the end of `remote_to_local`. */
  method SendFrame(sock: LocalSocket, buf: Frame)
    requires Fits(|buf|, sock.counts)
    requires forall i :: 0 <= i < |sock.counts| ==> sock.counts[i] <= |buf|
    modifies sock
    ensures sock.wire == old(sock.wire) + Resent(buf, old(sock.counts))
    ensures sock.counts == []
  {
    ghost var counts := sock.counts;
    var x := 0;
    ghost var k := 0;
    while x < |buf|
      invariant k <= |counts| && sock.counts == counts[k..]
      invariant if x < |buf| then Fits(|buf| - x, sock.counts) else sock.counts == []
      invariant sock.wire == old(sock.wire) + Resent(buf, counts[..k])
    {
      ResentSnoc(buf, counts[..k], counts[k]);
      assert counts[..k + 1] == counts[..k] + [counts[k]];
      var count := sock.Send(buf);
      x := x + count;
      k := k + 1;
    }
    assert counts[..k] == counts;
  }

  /** A sequence of sends delivers every buffer of a length exactly if the first
      of them takes it all: after a short send the loop starts over, so bytes
      are sent twice. */
  lemma ExactForAllBuffersIff(n: nat, counts: seq<nat>)
    requires n > 0 && Fits(n, counts)
    requires forall i :: 0 <= i < |counts| ==> counts[i] <= n
    ensures (forall buf: Frame | |buf| == n :: Resent(buf, counts) == buf) <==> counts == [n]
  {
    if counts == [n] {
      forall buf: Frame | |buf| == n ensures Resent(buf, counts) == buf {
        assert Resent(buf, [n]) == buf[..n] + Resent(buf, []) == buf;
      }
    } else {
      // After c bytes the loop sends buf[0] again, where buf[c] was due.
      var c := counts[0];
      var zeros: Frame := seq(n, i => 0);
      var buf := zeros[c := 1];
      var rest := counts[1..];
      assert rest != [] && rest[0] == counts[1] >= 1;
      assert Resent(buf, counts) == buf[..c] + (buf[..rest[0]] + Resent(buf, rest[1..]));
      assert Resent(buf, counts)[c] == buf[0] == 0 != buf[c];
      assert |buf| == n && Resent(buf, counts) != buf;
    }
  }

  /** Only buffers of at most one byte survive everything the socket may do. */
  lemma AlwaysExactIff(n: nat)
    ensures (forall counts: seq<nat> | Fits(n, counts) && (forall i :: 0 <= i < |counts| ==> counts[i] <= n) ::
               forall buf: Frame | |buf| == n :: Resent(buf, counts) == buf)
            <==> n <= 1
  {
    if n <= 1 {
      forall counts: seq<nat>, buf: Frame
        | Fits(n, counts) && (forall i :: 0 <= i < |counts| ==> counts[i] <= n) && |buf| == n
        ensures Resent(buf, counts) == buf
      {
        if n == 1 {
          assert counts == [1];
          ExactForAllBuffersIff(n, counts);
        }
      }
    } else {
      var counts: seq<nat> := [1, n];
      assert counts[1..] == [n] && Fits(n, counts);
      ExactForAllBuffersIff(n, counts);
    }
  }
}
