/** Who answers on the daemon port, who may be asked and who gets signalled:
    rx/daemon/pidfile.py, interceptors.py, client.py, manager.py and the stop
    command of rx/client/commands/daemon.py. */
module Daemon {
  import opened Prelude
  import opened Decimal

  const VERSION := "0.1.0"

  // ------------------------------------------------------------ the system

  datatype Signal = SigInt | SigTerm | Probe

  /** What `os.kill` does for a process number. */
  datatype KillResult = Delivered | NoSuchProcess | NotPermitted

  /** The pid file's text, the signals sent so far, and how the system answers
      to a signal. */
  datatype World = World(pidFile: Option<string>, signals: seq<(int, Signal)>, kill: int -> KillResult)

  /** The process on the daemon port: none that speaks this protocol, or an rx
      daemon with its own process number and version. */
  datatype Peer = Unreachable | RxDaemon(pid: nat, version: string)

  datatype Exception =
    | NotFound
    | BadPidText
    | RetryError
    | DaemonUnavailable
    | SignalFailed(why: KillResult)
    | RequestAnswered

  // ---------------------------------------------------------- interceptors

  type Metadata = seq<(string, string)>

  /** What the server does with a request. */
  datatype Reply = Handled | Aborted(pid: string) | ServerError

  /** `get_metadata`: the first value of a field; None for its RuntimeError. */
  function GetMetadata(metadata: Metadata, field: string): Option<string> {
    if metadata == [] then None
    else if metadata[0].0 == field then Some(metadata[0].1)
    else GetMetadata(metadata[1..], field)
  }

  /** A check compares one field with what this process expects; a mismatch
      aborts with the process number in the initial metadata. */
  function Check(metadata: Metadata, field: string, expected: string, ownPid: nat, continuation: Reply): Reply {
    match GetMetadata(metadata, field)
    case None => ServerError
    case Some(value) => if value == expected then continuation else Aborted(PrintInt(ownPid))
  }

  /** The interceptors in the order of rx/daemon/server.py: `PidCheck`, then
      `VersionCheck`, then the handler. */
  function Serve(pid: nat, version: string, metadata: Metadata): Reply {
    Check(metadata, "pid", PrintInt(pid), pid, Check(metadata, "cv", version, pid, Handled))
  }

  // ---------------------------------------------------------------- client

  /** The metadata the daemon client attaches. */
  function RequestMetadata(pid: string): Metadata {
    [("cv", VERSION), ("pid", pid)]
  }

  /** `PidFile.pid`. */
  function ReadPid(pidFile: Option<string>): Result<int, Exception> {
    match pidFile
    case None => Failure(NotFound)
    case Some(text) =>
      match ParseInt(text)
      case None => Failure(BadPidText)
      case Some(pid) => Success(pid)
  }

  /** What `PidFile.write` leaves in the file. */
  function PidLine(pid: nat): string {
    PrintInt(pid) + "\n"
  }

  /** `os.kill`. */
  function Kill(w: World, pid: int, signal: Signal): (World, KillResult) {
    (w.(signals := w.signals + [(pid, signal)]), w.kill(pid))
  }

  /** What a request to the peer comes to for the caller. */
  function Ask(peer: Peer, metadata: Metadata): Reply {
    if peer.Unreachable? then ServerError else Serve(peer.pid, peer.version, metadata)
  }

  /** `handle_rpc_error`: it never returns. */
  function HandleRpcError(w: World, reply: Reply): (World, Exception) {
    if reply.Aborted? then
      match ParseInt(reply.pid)
      case None => (w, BadPidText)
      case Some(pid) =>
        var (w', result) := Kill(w, pid, SigTerm);
        (w', if result.Delivered? then RetryError else SignalFailed(result))
    else (w, DaemonUnavailable)
  }

  /** `Client(...)` and its `info`: whether the peer answered. */
  function AskFromPidFile(w: World, peer: Peer): (World, Result<bool, Exception>) {
    match ReadPid(w.pidFile)
    case Failure(e) => (w, Failure(e))
    case Success(pid) =>
      var reply := Ask(peer, RequestMetadata(PrintInt(pid)));
      if reply.Handled? then (w, Success(true))
      else
        var (w', e) := HandleRpcError(w, reply);
        (w', Failure(e))
  }

  /** `connect_and_kill`. */
  function ConnectAndKill(w: World, peer: Peer): (World, Result<bool, Exception>) {
    var reply := Ask(peer, RequestMetadata("unknown"));
    if reply.Handled? then (w, Failure(RequestAnswered))
    else
      var (w', e) := HandleRpcError(w, reply);
      if e.DaemonUnavailable? then (w', Success(true)) else (w', Failure(e))
  }

  /** `StopCommand.kill_by_pid`. */
  function KillByPid(w: World, pid: int): (World, Result<bool, Exception>) {
    var (w', result) := Kill(w, pid, SigInt);
    match result
    case Delivered => (w', Success(true))
    case NoSuchProcess => (w'.(pidFile := None), Success(false))
    case NotPermitted => (w', Failure(SignalFailed(result)))
  }

  /** `PidFile.is_running`. */
  function IsRunning(w: World): (World, Result<bool, Exception>) {
    match ReadPid(w.pidFile)
    case Failure(e) => (w, if e.NotFound? then Success(false) else Failure(e))
    case Success(pid) =>
      var (w', result) := Kill(w, pid, Probe);
      match result
      case Delivered => (w', Success(true))
      case NoSuchProcess => (w', Success(false))
      case NotPermitted => (w', Failure(SignalFailed(result)))
  }

  // --------------------------------------------------------------- results

  /** Reading the pid file fails in one way if there is none, and in another if
      its text is no integer. */
  lemma ReadPidOutcomes(pidFile: Option<string>)
    ensures ReadPid(pidFile) == Failure(NotFound) <==> pidFile.None?
    ensures ReadPid(pidFile) == Failure(BadPidText) <==> pidFile.Some? && ParseInt(pidFile.value).None?
    ensures forall pid :: ReadPid(pidFile) == Success(pid) <==> pidFile.Some? && ParseInt(pidFile.value) == Some(pid)
  {
  }

  /** `is_running` sends signal 0 and no other, to the process of a readable pid
      file and to nobody without one. It is True exactly if that is delivered, and
      False exactly if the file is missing or there is no such process. */
  lemma IsRunningOutcomes(w: World)
    ensures
      var (w', r) := IsRunning(w);
      && w' == w.(signals := w.signals + ProbeOf(w.pidFile))
      && (r == Success(true) <==> ReadPid(w.pidFile).Success? && w.kill(ReadPid(w.pidFile).value).Delivered?)
      && (r == Success(false) <==>
            w.pidFile.None? || (ReadPid(w.pidFile).Success? && w.kill(ReadPid(w.pidFile).value).NoSuchProcess?))
      && (r == Failure(BadPidText) <==> ReadPid(w.pidFile) == Failure(BadPidText))
      && (r == Failure(SignalFailed(NotPermitted)) <==>
            ReadPid(w.pidFile).Success? && w.kill(ReadPid(w.pidFile).value).NotPermitted?)
  {
    assert w.(signals := w.signals + []) == w;
  }

  /** The signal 0 for a readable pid file. */
  function ProbeOf(pidFile: Option<string>): seq<(int, Signal)> {
    if ReadPid(pidFile).Success? then [(ReadPid(pidFile).value, Probe)] else []
  }

  /** Without a pid file to read, or with nobody on the port, a request fails and
      nobody is signalled. */
  lemma NobodyAsked(w: World, peer: Peer)
    requires ReadPid(w.pidFile).Failure? || peer.Unreachable?
    ensures
      var (w', r) := AskFromPidFile(w, peer);
      && w' == w
      && (ReadPid(w.pidFile).Failure? ==> r == Failure(ReadPid(w.pidFile).error))
      && (ReadPid(w.pidFile).Success? ==> r == Failure(DaemonUnavailable))
  {
  }

  /** Writing the pid file and reading it back, and sending it to be compared,
      keep the process number. */
  lemma PidRoundTrip(pid: nat)
    ensures ReadPid(Some(PidLine(pid))) == Success(pid)
  {
    ParsePrint(pid);
  }

  /** A field has the first value given for it. */
  lemma {:induction false} FirstValue(metadata: Metadata, field: string, k: nat)
    requires k < |metadata| && metadata[k].0 == field
    requires forall i :: 0 <= i < k ==> metadata[i].0 != field
    ensures GetMetadata(metadata, field) == Some(metadata[k].1)
  {
    if k > 0 {
      FirstValue(metadata[1..], field, k - 1);
    }
  }

  lemma {:induction false} NoValue(metadata: Metadata, field: string)
    requires forall i :: 0 <= i < |metadata| ==> metadata[i].0 != field
    ensures GetMetadata(metadata, field) == None
  {
    if metadata != [] {
      NoValue(metadata[1..], field);
    }
  }

  /** A request is handled exactly if both fields are there and right. The process
      number is looked at first: a wrong one, or with a right one a wrong version,
      is answered with this daemon's own number, and a missing field with an
      error. */
  lemma ServeIff(pid: nat, version: string, metadata: Metadata)
    ensures
      var r, given, cv := Serve(pid, version, metadata), GetMetadata(metadata, "pid"), GetMetadata(metadata, "cv");
      var right := given == Some(PrintInt(pid));
      && (r == Handled <==> right && cv == Some(version))
      && (r == Aborted(PrintInt(pid)) <==> (given.Some? && !right) || (right && cv.Some? && cv.value != version))
      && (r == ServerError <==> given.None? || (right && cv.None?))
  {
  }

  lemma MetadataFields(pid: string)
    ensures GetMetadata(RequestMetadata(pid), "pid") == Some(pid)
    ensures GetMetadata(RequestMetadata(pid), "cv") == Some(VERSION)
  {
    var md := RequestMetadata(pid);
    assert "pid" != "cv" by { assert |"pid"| == 3; }
    assert md[1..] == [("pid", pid)];
    assert GetMetadata(md, "pid") == GetMetadata(md[1..], "pid");
  }

  /** A request built from the pid file reaches a handler exactly if the
      answering daemon has that process number and this version; any other
      answering daemon is the one that gets signalled, and it alone. */
  lemma ReachesHandlerIff(w: World, peer: Peer)
    requires peer.RxDaemon? && ReadPid(w.pidFile).Success?
    ensures
      var (w', r) := AskFromPidFile(w, peer);
      && (r.Success? <==> ReadPid(w.pidFile) == Success(peer.pid) && peer.version == VERSION)
      && (r.Success? ==> w' == w)
      && (r.Failure? ==>
            && w' == w.(signals := w.signals + [(peer.pid, SigTerm)])
            && r.error == (if w.kill(peer.pid).Delivered? then RetryError else SignalFailed(w.kill(peer.pid))))
  {
    var pid := ReadPid(w.pidFile).value;
    MetadataFields(PrintInt(pid));
    PrintInjective(pid, peer.pid);
    ParsePrint(peer.pid);
  }

  /** No daemon has the process number "unknown". */
  lemma ProbeIsRejected(pid: nat, version: string)
    ensures Serve(pid, version, RequestMetadata("unknown")) == Aborted(PrintInt(pid))
  {
    MetadataFields("unknown");
    PrintStart(pid);
    assert "unknown"[0] == 'u';
  }

  /** `connect_and_kill` signals the daemon that answers and raises, or finds
      nobody and returns True; its assertion and its False are never reached. */
  lemma ConnectAndKillOutcomes(w: World, peer: Peer)
    ensures
      var (w', r) := ConnectAndKill(w, peer);
      match peer
      case Unreachable => w' == w && r == Success(true)
      case RxDaemon(pid, _) =>
        && w' == w.(signals := w.signals + [(pid, SigTerm)])
        && r == Failure(if w.kill(pid).Delivered? then RetryError else SignalFailed(w.kill(pid)))
  {
    if peer.RxDaemon? {
      ProbeIsRejected(peer.pid, peer.version);
      ParsePrint(peer.pid);
    }
  }

  // ---------------------------------------------------------- the commands

  /** The mutable system the commands run against. */
  class Os {
    var pidFile: Option<string>
    var signals: seq<(int, Signal)>
    const kill: int -> KillResult

    constructor (pidFile: Option<string>, kill: int -> KillResult)
      ensures View() == World(pidFile, [], kill)
    {
      this.pidFile, this.kill, signals := pidFile, kill, [];
    }

    function View(): World
      reads this
    {
      World(pidFile, signals, kill)
    }

    /** `PidFile.write`. */
    method WritePid(pid: nat)
      modifies this`pidFile
      ensures pidFile == Some(PrintInt(pid) + "\n") && ReadPid(pidFile) == Success(pid)
    {
      pidFile := Some(PrintInt(pid) + "\n");
      PidRoundTrip(pid);
    }

    /** `PidFile.delete`; a missing file is no error. */
    method DeletePid()
      modifies this`pidFile
      ensures pidFile == None
    {
      pidFile := None;
    }

    method SendSignal(pid: int, signal: Signal) returns (r: KillResult)
      modifies this`signals
      ensures (View(), r) == Kill(old(View()), pid, signal)
    {
      signals := signals + [(pid, signal)];
      r := kill(pid);
    }
  }

  method KillOtherDaemon(os: Os, reply: Reply) returns (e: Exception)
    modifies os
    ensures (os.View(), e) == HandleRpcError(old(os.View()), reply)
  {
    if !reply.Aborted? {
      return DaemonUnavailable;
    }
    var pid := ParseInt(reply.pid);
    if pid.None? {
      return BadPidText;
    }
    var r := os.SendSignal(pid.value, SigTerm);
    return if r.Delivered? then RetryError else SignalFailed(r);
  }

  method RunConnectAndKill(os: Os, peer: Peer) returns (r: Result<bool, Exception>)
    modifies os
    ensures (os.View(), r) == ConnectAndKill(old(os.View()), peer)
  {
    var reply := Ask(peer, RequestMetadata("unknown"));
    if reply.Handled? {
      return Failure(RequestAnswered);
    }
    var e := KillOtherDaemon(os, reply);
    return if e.DaemonUnavailable? then Success(true) else Failure(e);
  }

  method RunIsRunning(os: Os) returns (r: Result<bool, Exception>)
    modifies os
    ensures (os.View(), r) == IsRunning(old(os.View()))
    ensures os.signals == old(os.signals) + ProbeOf(old(os.pidFile)) && os.pidFile == old(os.pidFile)
  {
    IsRunningOutcomes(os.View());
    var pid := ReadPid(os.pidFile);
    if pid.Failure? {
      return if pid.error.NotFound? then Success(false) else Failure(pid.error);
    }
    var k := os.SendSignal(pid.value, Probe);
    match k
    case Delivered => return Success(true);
    case NoSuchProcess => return Success(false);
    case NotPermitted => return Failure(SignalFailed(k));
  }

  method RunKillByPid(os: Os, pid: int) returns (r: Result<bool, Exception>)
    modifies os
    ensures (os.View(), r) == KillByPid(old(os.View()), pid)
  {
    var k := os.SendSignal(pid, SigInt);
    match k
    case Delivered => return Success(true);
    case NoSuchProcess =>
      os.DeletePid();
      return Success(false);
    case NotPermitted => return Failure(SignalFailed(k));
  }

  /** The signals a stop sends: to the process of the pid file, and unless that
      worked to the daemon that answers. */
  function StopSignals(pidFile: Option<string>, peer: Peer, kill: int -> KillResult): seq<(int, Signal)> {
    var byAnswer := if peer.RxDaemon? then [(peer.pid as int, SigTerm)] else [];
    match ReadPid(pidFile)
    case Failure(e) => if e.NotFound? then byAnswer else []
    case Success(pid) => [(pid, SigInt)] + (if kill(pid).NoSuchProcess? then byAnswer else [])
  }

  /** `StopCommand._run`: it yields 0 whenever it yields anything. It raises only
      for an unreadable pid file or a signal the system refuses. */
  method StopCommand(os: Os, peer: Peer) returns (r: Result<int, Exception>)
    modifies os
    ensures r.Success? ==> r.value == 0
    ensures os.signals == old(os.signals) + StopSignals(old(os.pidFile), peer, os.kill)
    ensures os.pidFile == match ReadPid(old(os.pidFile))
                          case Failure(_) => old(os.pidFile)
                          case Success(pid) => if os.kill(pid).NoSuchProcess? then None else old(os.pidFile)
    ensures r.Failure? <==>
              match ReadPid(old(os.pidFile))
              case Failure(e) => !e.NotFound? || (peer.RxDaemon? && !os.kill(peer.pid).Delivered?)
              case Success(pid) =>
                || os.kill(pid).NotPermitted?
                || (os.kill(pid).NoSuchProcess? && peer.RxDaemon? && !os.kill(peer.pid).Delivered?)
    ensures r.Failure? ==> r.error.BadPidText? || r.error.SignalFailed?
  {
    var done := false;
    var pid := ReadPid(os.pidFile);
    if pid.Success? {
      var killed := RunKillByPid(os, pid.value);
      if killed.Failure? {
        return Failure(killed.error);
      }
      done := killed.value;
    } else if !pid.error.NotFound? {
      return Failure(pid.error);
    }
    if !done {
      ConnectAndKillOutcomes(os.View(), peer);
      var connected := RunConnectAndKill(os, peer);
      if connected.Success? {
        done := connected.value;
      } else if connected.error.RetryError? {
        done := true;
      } else {
        return Failure(connected.error);
      }
      if !done {
        return Success(-1);
      }
    }
    return Success(0);
  }

  /** What one try of `start_daemon` finds. */
  datatype Try = Try(pidFile: Option<string>, peer: Peer)

  /** The pid file's own daemon answers, with this version. */
  predicate OwnDaemon(t: Try) {
    t.peer.RxDaemon? && ReadPid(t.pidFile) == Success(t.peer.pid) && t.peer.version == VERSION
  }

  /** Another rx daemon answers a request built from the pid file. */
  predicate OtherDaemon(t: Try) {
    t.peer.RxDaemon? && ReadPid(t.pidFile).Success? && !OwnDaemon(t)
  }

  /** The try ends `start_daemon`: it connects, or it raises. */
  predicate Decisive(t: Try) {
    OwnDaemon(t) || OtherDaemon(t) || ReadPid(t.pidFile) == Failure(BadPidText)
  }

  /** The first try that decides; their number if none does. */
  function FirstDecisive(tries: seq<Try>): (i: nat)
    ensures i <= |tries| && (i < |tries| ==> Decisive(tries[i]))
    ensures forall j :: 0 <= j < i ==> !Decisive(tries[j])
  {
    if tries == [] || Decisive(tries[0]) then 0 else 1 + FirstDecisive(tries[1..])
  }

  /** SIGTERM for a process, and what that raises. */
  function Terminated(kill: int -> KillResult, pid: nat): Exception {
    if kill(pid).Delivered? then RetryError else SignalFailed(kill(pid))
  }

  /** The first `upTo` tries do not decide. */
  predicate NothingYet(tries: seq<Try>, upTo: nat) {
    upTo <= |tries| && forall j :: 0 <= j < upTo ==> !Decisive(tries[j])
  }

  /** Only one try can be the first to decide. */
  lemma FirstIs(tries: seq<Try>, i: nat)
    requires NothingYet(tries, i) && (i < |tries| ==> Decisive(tries[i]))
    ensures FirstDecisive(tries) == i
  {
  }

  /** The daemon that a start ends up signalling: another one that answers before
      the own one does, or if nothing decides the one that answers at last. */
  function Unwanted(tries: seq<Try>, peer: Peer): Option<nat> {
    var i := FirstDecisive(tries);
    var last := if i < |tries| then tries[i].peer else peer;
    if (i < |tries| && !OtherDaemon(tries[i])) || last.Unreachable? then None else Some(last.pid)
  }

  /** One try of the loop. */
  method TryOnce(os: Os, t: Try) returns (r: Result<bool, Exception>)
    modifies os
    ensures r == Success(true) <==> OwnDaemon(t)
    ensures r == Success(false) <==> !Decisive(t)
    ensures OtherDaemon(t) ==> r == Failure(Terminated(os.kill, t.peer.pid))
    ensures ReadPid(t.pidFile) == Failure(BadPidText) ==> r == Failure(BadPidText)
    ensures os.signals == old(os.signals) + if OtherDaemon(t) then [(t.peer.pid as int, SigTerm)] else []
    ensures os.pidFile == t.pidFile
  {
    os.pidFile := t.pidFile;
    var pid := ReadPid(os.pidFile);
    if pid.Success? {
      if t.peer.RxDaemon? {
        ReachesHandlerIff(os.View(), t.peer);
      }
      var reply := Ask(t.peer, RequestMetadata(PrintInt(pid.value)));
      if reply.Handled? {
        return Success(true);
      }
      var e := KillOtherDaemon(os, reply);
      return if e.DaemonUnavailable? then Success(false) else Failure(e);
    }
    return if pid.error.BadPidText? then Failure(BadPidText) else Success(false);
  }

  /** `start_daemon` after the spawn: five tries, each against the pid file and
      the peer of that moment. The first try that decides does so: it is True if
      that one finds the pid file's own daemon in this version. It raises if that
      one finds another daemon, which it signals, or an unreadable pid file; and
      it is False if none decides. */
  method StartDaemon(os: Os, tries: seq<Try>) returns (r: Result<bool, Exception>)
    requires |tries| == 5
    modifies os
    ensures r == Success(true) <==> exists i :: 0 <= i < 5 && OwnDaemon(tries[i]) && NothingYet(tries, i)
    ensures r == Success(false) <==> forall i :: 0 <= i < 5 ==> !Decisive(tries[i])
    ensures forall i :: 0 <= i < 5 && NothingYet(tries, i) && OtherDaemon(tries[i]) ==>
              && r == Failure(Terminated(os.kill, tries[i].peer.pid))
              && os.signals == old(os.signals) + [(tries[i].peer.pid as int, SigTerm)]
    ensures forall i :: 0 <= i < 5 && NothingYet(tries, i) && ReadPid(tries[i].pidFile) == Failure(BadPidText) ==>
              r == Failure(BadPidText)
    ensures r.Success? || r.error.BadPidText? ==> os.signals == old(os.signals)
    ensures r.Failure? ==> exists i :: 0 <= i < 5 && NothingYet(tries, i) && Decisive(tries[i]) && !OwnDaemon(tries[i])
  {
    for i := 0 to |tries|
      invariant NothingYet(tries, i) && os.signals == old(os.signals)
    {
      r := TryOnce(os, tries[i]);
      if r != Success(false) {
        FirstIs(tries, i);
        assert forall k :: 0 <= k < 5 && NothingYet(tries, k) && Decisive(tries[k]) ==> k == i;
        return;
      }
    }
    return Success(false);
  }

  /** The process of the pid file runs, as far as a signal 0 can tell. */
  predicate Runs(pidFile: Option<string>, kill: int -> KillResult) {
    ReadPid(pidFile).Success? && kill(ReadPid(pidFile).value).Delivered?
  }

  /** The pid file is missing, or its process is. */
  predicate Gone(pidFile: Option<string>, kill: int -> KillResult) {
    pidFile.None? || (ReadPid(pidFile).Success? && kill(ReadPid(pidFile).value).NoSuchProcess?)
  }

  /** `maybe_start_daemon`. It is True exactly if a process runs under the pid
      file's number, or none does and the start finds its own daemon. The check
      sends signal 0 alone. Otherwise it signals the unwanted daemon, if there is
      one, and is False; it raises only for an unreadable pid file or a signal the
      system refuses. */
  method MaybeStartDaemon(os: Os, tries: seq<Try>, peer: Peer) returns (r: Result<bool, Exception>)
    requires |tries| == 5
    modifies os
    ensures
      var runs, gone := Runs(old(os.pidFile), os.kill), Gone(old(os.pidFile), os.kill);
      var i := FirstDecisive(tries);
      var unwanted := if gone then Unwanted(tries, peer) else None;
      && (r == Success(true) <==> runs || (gone && i < 5 && OwnDaemon(tries[i])))
      && (!runs && !gone ==>
            r == Failure(if ReadPid(old(os.pidFile)).Failure? then BadPidText else SignalFailed(NotPermitted)))
      && (unwanted.Some? ==>
            r == if os.kill(unwanted.value).Delivered? then Success(false)
                 else Failure(SignalFailed(os.kill(unwanted.value))))
      && (gone && unwanted.None? ==>
            && (r.Failure? <==> i < 5 && ReadPid(tries[i].pidFile) == Failure(BadPidText))
            && (r.Failure? ==> r.error.BadPidText?))
      && os.signals == old(os.signals) + ProbeOf(old(os.pidFile))
           + if unwanted.Some? then [(unwanted.value as int, SigTerm)] else []
  {
    IsRunningOutcomes(os.View());
    r := RunIsRunning(os);
    if r != Success(false) {
      return;
    }
    r := StartDaemon(os, tries);
    if r == Success(true) {
      return;
    }
    if r == Success(false) {
      FirstIs(tries, 5);
      ConnectAndKillOutcomes(os.View(), peer);
      r := RunConnectAndKill(os, peer);
    }
    return if r.Failure? && !r.error.RetryError? then r else Success(false);
  }
}
