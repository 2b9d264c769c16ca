/** The port table of rx/daemon/port_forwarding/service.py together with the bind
    and release events of port_forwarder.py, under interleaved RPC handlers.

    `OpenPort` is three atomic steps (look in the table, bind, insert) and
    `ClosePort` is three (look, fetch the forwarder, stop it). Handlers run on a
    pool without a lock, so an action names the call that moves. Exclusivity of
    a port is the operating system's: a bind succeeds only on a free port. */
module PortTable {
  import opened Prelude

  const MAX_PORT := 65535

  /** Who holds a bound local port: another process, or the forwarder that the
      call with this number created. */
  datatype Owner = Foreign | Ours(id: nat)

  /** A forwarder's server socket. */
  datatype Socket = Unbound | Listening(port: int) | Stopped

  datatype Reply = Ok | AddrInUse | NotFound | Raised

  datatype OpenPc = CheckTable | Bind | Insert | OpenDone(openReply: Reply)
  datatype ClosePc = CheckListed | Fetch | Stop(id: nat) | CloseDone(closeReply: Reply)

  /** A handler call. An `Open` call owns the forwarder it creates, so the
      forwarder goes by the number of its call. */
  datatype Call =
    | Open(remote: int, local: int, open: OpenPc, sock: Socket)
    | Close(port: int, close: ClosePc)

  datatype State = State(table: map<int, nat>, bound: map<int, Owner>, calls: seq<Call>)

  /** What `bind` does apart from finding the port taken: choose a port when
      asked for port 0, or raise something else. */
  datatype BindResult = Chosen(port: int) | BindRaised

  datatype Action =
    | OpenPort(port: int, localPort: int)
    | ClosePort(port: int)
    | Advance(id: nat, bind: BindResult)
    | ClosePorts
    | ForeignBind(port: int)
    | ForeignRelease(port: int)

  const Init := State(map[], map[], [])

  /** `request.local_port if request.local_port else request.port`. */
  function EffectiveLocal(port: int, localPort: int): int {
    if localPort != 0 then localPort else port
  }

  // ---------------------------------------------------------------- steps

  function OpenStep(s: State, id: nat, bind: BindResult): State
    requires id < |s.calls| && s.calls[id].Open?
  {
    var c := s.calls[id];
    match c.open
    case CheckTable =>
      s.(calls := s.calls[id := c.(open := if c.local in s.table then OpenDone(AddrInUse) else Bind)])
    case Bind =>
      if bind.BindRaised? || !(0 <= c.local <= MAX_PORT) then s.(calls := s.calls[id := c.(open := OpenDone(Raised))])
      else
        var port := if c.local == 0 then bind.port else c.local;
        if port in s.bound || !(1 <= port <= MAX_PORT) then
          s.(calls := s.calls[id := c.(open := OpenDone(AddrInUse))])
        else
          s.(bound := s.bound[port := Ours(id)], calls := s.calls[id := c.(open := Insert, sock := Listening(port))])
    case Insert =>
      s.(table := s.table[c.local := id], calls := s.calls[id := c.(open := OpenDone(Ok))])
    case OpenDone(_) => s
  }

  /** `PortForwarder.stop`: closing the socket frees the port at once; a second
      stop does nothing. */
  function StopForwarder(s: State, id: nat): State {
    if id < |s.calls| && s.calls[id].Open? && s.calls[id].sock.Listening? then
      s.(bound := s.bound - {s.calls[id].sock.port}, calls := s.calls[id := s.calls[id].(sock := Stopped)])
    else s
  }

  function CloseStep(s: State, id: nat): State
    requires id < |s.calls| && s.calls[id].Close?
  {
    var c := s.calls[id];
    match c.close
    case CheckListed =>
      s.(calls := s.calls[id := c.(close := if c.port in s.table then Fetch else CloseDone(NotFound))])
    case Fetch =>
      // `self._ports[port]` raises if the table was reset since the check.
      s.(calls := s.calls[id := c.(close := if c.port in s.table then Stop(s.table[c.port]) else CloseDone(Raised))])
    case Stop(forwarder) =>
      StopForwarder(s.(calls := s.calls[id := c.(close := CloseDone(Ok))]), forwarder)
    case CloseDone(_) => s
  }

  /** The forwarders in a set are stopped. */
  function StopSome(s: State, ids: set<nat>): State {
    State(s.table,
          map p | p in s.bound && !(s.bound[p].Ours? && s.bound[p].id in ids) :: s.bound[p],
          seq(|s.calls|, i requires 0 <= i < |s.calls| =>
            if i in ids && s.calls[i].Open? && s.calls[i].sock.Listening?
            then s.calls[i].(sock := Stopped) else s.calls[i]))
  }

  /** `close_ports`, which the signal handler runs. */
  function StopAll(s: State): State {
    StopSome(s, s.table.Values).(table := map[])
  }

  function Step(s: State, a: Action): State {
    match a
    case OpenPort(port, localPort) =>
      s.(calls := s.calls + [Open(port, EffectiveLocal(port, localPort), CheckTable, Unbound)])
    case ClosePort(port) => s.(calls := s.calls + [Close(port, CheckListed)])
    case Advance(id, bind) =>
      if id >= |s.calls| then s
      else if s.calls[id].Open? then OpenStep(s, id, bind)
      else CloseStep(s, id)
    case ClosePorts => StopAll(s)
    case ForeignBind(port) =>
      if port in s.bound || !(1 <= port <= MAX_PORT) then s else s.(bound := s.bound[port := Foreign])
    case ForeignRelease(port) =>
      if port in s.bound && s.bound[port].Foreign? then s.(bound := s.bound - {port}) else s
  }

  function Run(s: State, schedule: seq<Action>): State
    decreases |schedule|
  {
    if schedule == [] then s else Run(Step(s, schedule[0]), schedule[1..])
  }

  // ------------------------------------------------------------ invariants

  predicate Live(s: State, id: nat) {
    id < |s.calls| && s.calls[id].Open? && s.calls[id].sock.Listening?
  }

  /** A live forwarder holds its port, and it is the one it was asked for
      unless that was 0. */
  predicate HoldsPort(s: State, id: nat)
    requires Live(s, id)
  {
    var c := s.calls[id];
    && c.sock.port in s.bound && s.bound[c.sock.port] == Ours(id)
    && (c.local != 0 ==> c.sock.port == c.local)
  }

  /** In the table under its own port, or between its bind and its insert. */
  predicate Listed(s: State, id: nat)
    requires Live(s, id)
  {
    var c := s.calls[id];
    c.open.Insert? || (c.local in s.table && s.table[c.local] == id)
  }

  /** The forwarder exists from the bind on. */
  predicate CallInv(s: State, id: nat)
    requires id < |s.calls|
  {
    var c := s.calls[id];
    if c.Open? then
      && (c.open.Insert? ==> c.sock.Listening?)
      && (c.sock.Unbound? <==> c.open.CheckTable? || c.open.Bind? || (c.open.OpenDone? && c.open.openReply != Ok))
    else c.close.Stop? ==> Created(s, c.close.id)
  }

  /** The call that inserted a forwarder has returned. */
  predicate Created(s: State, id: nat) {
    id < |s.calls| && s.calls[id].Open? && s.calls[id].open == OpenDone(Ok)
  }

  ghost predicate TableInv(s: State) {
    forall p :: p in s.table ==> Created(s, s.table[p]) && s.calls[s.table[p]].local == p
  }

  ghost predicate BoundInv(s: State) {
    forall p :: p in s.bound && s.bound[p].Ours? ==>
      Live(s, s.bound[p].id) && s.calls[s.bound[p].id].sock.port == p
  }

  ghost predicate LiveInv(s: State) {
    forall id: nat :: Live(s, id) ==> HoldsPort(s, id) && (s.calls[id].local != 0 ==> Listed(s, id))
  }

  ghost predicate Inv(s: State) {
    && (forall id: nat :: id < |s.calls| ==> CallInv(s, id))
    && TableInv(s) && BoundInv(s) && LiveInv(s)
  }

  lemma OpenKeepsCalls(s: State, id: nat, bind: BindResult)
    requires Inv(s) && id < |s.calls| && s.calls[id].Open?
    ensures forall j: nat :: j < |s.calls| ==> CallInv(OpenStep(s, id, bind), j)
  {
    assert CallInv(s, id);
    forall j: nat | j < |s.calls| ensures CallInv(OpenStep(s, id, bind), j) {
      assert CallInv(s, j);
    }
  }

  lemma OpenKeepsInv(s: State, id: nat, bind: BindResult)
    requires Inv(s) && id < |s.calls| && s.calls[id].Open?
    ensures Inv(OpenStep(s, id, bind))
  {
    assert CallInv(s, id);
    OpenKeepsCalls(s, id, bind);
    var t := OpenStep(s, id, bind);
    if s.calls[id].open.Insert? && s.calls[id].local != 0 && s.calls[id].local in s.table {
      OverwritesOnlyStopped(s, id);
    }
    forall j: nat | Live(t, j) ensures HoldsPort(t, j) && (t.calls[j].local != 0 ==> Listed(t, j)) {
      if j != id {
        assert Live(s, j);
      }
    }
  }

  /** The entry an insert replaces belongs to a stopped forwarder. */
  lemma OverwritesOnlyStopped(s: State, id: nat)
    requires Inv(s) && id < |s.calls| && s.calls[id].Open? && s.calls[id].open.Insert?
    requires s.calls[id].local != 0 && s.calls[id].local in s.table
    ensures !Live(s, s.table[s.calls[id].local]) && s.table[s.calls[id].local] != id
  {
    assert CallInv(s, id);
    var listed := s.table[s.calls[id].local];
    assert Created(s, listed) && Live(s, id) && HoldsPort(s, id);
    assert Live(s, listed) ==> HoldsPort(s, listed);
  }

  lemma StopKeepsInv(s: State, id: nat)
    requires Inv(s) && Created(s, id)
    ensures Inv(StopForwarder(s, id))
  {
    var t := StopForwarder(s, id);
    assert CallInv(s, id);
    forall j: nat | Live(t, j) ensures HoldsPort(t, j) && (t.calls[j].local != 0 ==> Listed(t, j)) {
      assert Live(s, j) && HoldsPort(s, j);
      if Live(s, id) {
        assert HoldsPort(s, id);
      }
    }
    forall j: nat | j < |t.calls| ensures CallInv(t, j) {
      assert CallInv(s, j);
    }
  }

  lemma CloseKeepsInv(s: State, id: nat)
    requires Inv(s) && id < |s.calls| && s.calls[id].Close?
    ensures Inv(CloseStep(s, id))
  {
    assert CallInv(s, id);
    var c := s.calls[id];
    var next := match c.close
      case CheckListed => if c.port in s.table then Fetch else CloseDone(NotFound)
      case Fetch => if c.port in s.table then Stop(s.table[c.port]) else CloseDone(Raised)
      case Stop(_) => CloseDone(Ok)
      case CloseDone(_) => c.close;
    var t := s.(calls := s.calls[id := c.(close := next)]);
    forall j: nat | j < |t.calls| ensures CallInv(t, j) {
      assert CallInv(s, j);
    }
    forall j: nat | Live(t, j) ensures HoldsPort(t, j) && (t.calls[j].local != 0 ==> Listed(t, j)) {
      assert Live(s, j);
    }
    assert Inv(t);
    if c.close.Stop? {
      StopKeepsInv(t, c.close.id);
    } else if c.close.CloseDone? {
      assert s.calls[id := c] == s.calls;
    }
  }

  lemma StopAllKeepsInv(s: State)
    requires Inv(s)
    ensures Inv(StopAll(s))
    ensures forall id: nat :: Live(StopAll(s), id) ==> s.calls[id].open.Insert? || s.calls[id].local == 0
  {
    var t := StopAll(s);
    forall i: nat | i in s.table.Values ensures Created(s, i) {
      var p := KeyOf(s.table, i);
    }
    forall j: nat | Live(t, j)
      ensures HoldsPort(t, j) && (t.calls[j].local != 0 ==> Listed(t, j))
      ensures s.calls[j].open.Insert? || s.calls[j].local == 0
    {
      assert Live(s, j) && HoldsPort(s, j) && CallInv(s, j);
    }
    forall j: nat | j < |t.calls| ensures CallInv(t, j) {
      assert CallInv(s, j);
    }
    forall p | p in t.bound && t.bound[p].Ours? ensures Live(t, t.bound[p].id) {
      assert Live(s, s.bound[p].id);
    }
  }

  lemma ArrivalKeepsInv(s: State, c: Call)
    requires Inv(s)
    requires (exists r, l :: c == Open(r, l, CheckTable, Unbound)) || (exists p :: c == Close(p, CheckListed))
    ensures Inv(s.(calls := s.calls + [c]))
  {
    var t := s.(calls := s.calls + [c]);
    forall j: nat | j < |t.calls| ensures CallInv(t, j) {
      if j < |s.calls| {
        assert CallInv(s, j);
      }
    }
    forall j: nat | Live(t, j) ensures HoldsPort(t, j) && (t.calls[j].local != 0 ==> Listed(t, j)) {
      assert Live(s, j);
    }
  }

  lemma ForeignKeepsInv(s: State, a: Action)
    requires Inv(s) && (a.ForeignBind? || a.ForeignRelease?)
    ensures Inv(Step(s, a))
  {
    var t := Step(s, a);
    forall j: nat | j < |t.calls| ensures CallInv(t, j) {
      assert CallInv(s, j);
    }
    forall j: nat | Live(t, j) ensures HoldsPort(t, j) && (t.calls[j].local != 0 ==> Listed(t, j)) {
      assert Live(s, j) && HoldsPort(s, j);
    }
  }

  lemma StepKeepsInv(s: State, a: Action)
    requires Inv(s)
    ensures Inv(Step(s, a))
  {
    match a
    case OpenPort(port, localPort) =>
      ArrivalKeepsInv(s, Open(port, EffectiveLocal(port, localPort), CheckTable, Unbound));
    case ClosePort(port) => ArrivalKeepsInv(s, Close(port, CheckListed));
    case Advance(id, bind) =>
      if id < |s.calls| {
        if s.calls[id].Open? {
          OpenKeepsInv(s, id, bind);
        } else {
          CloseKeepsInv(s, id);
        }
      }
    case ClosePorts => StopAllKeepsInv(s);
    case ForeignBind(_) => ForeignKeepsInv(s, a);
    case ForeignRelease(_) => ForeignKeepsInv(s, a);
  }

  lemma {:induction false} RunKeepsInv(s: State, schedule: seq<Action>)
    requires Inv(s)
    ensures Inv(Run(s, schedule))
    decreases |schedule|
  {
    if schedule != [] {
      StepKeepsInv(s, schedule[0]);
      RunKeepsInv(Step(s, schedule[0]), schedule[1..]);
    }
  }

  /** Stopping one more forwarder. */
  lemma StopOneMore(s: State, ids: set<nat>, id: nat)
    requires Inv(s) && Inv(StopSome(s, ids))
    ensures StopForwarder(StopSome(s, ids), id) == StopSome(s, ids + {id})
  {
    var t, u := StopSome(s, ids), StopForwarder(StopSome(s, ids), id);
    assert Live(t, id) ==> HoldsPort(t, id);
    assert forall p :: p in t.bound && t.bound[p] == Ours(id) ==> Live(t, id) && t.calls[id].sock.port == p;
    assert u.calls == StopSome(s, ids + {id}).calls;
    assert u.bound.Keys == StopSome(s, ids + {id}).bound.Keys;
  }

  // --------------------------------------------------------------- results

  /** No interleaving leaves two live forwarders on one port; two that were
      asked for the same local port can only have been asked for port 0. */
  lemma OneForwarderPerPort(schedule: seq<Action>, i: nat, j: nat)
    ensures
      var s := Run(Init, schedule);
      i != j && Live(s, i) && Live(s, j) ==>
        && s.calls[i].sock.port != s.calls[j].sock.port
        && (s.calls[i].local == s.calls[j].local ==> s.calls[i].local == 0)
  {
    RunKeepsInv(Init, schedule);
    var s := Run(Init, schedule);
    if Live(s, i) && Live(s, j) {
      assert HoldsPort(s, i) && HoldsPort(s, j);
    }
  }

  /** Every live forwarder of a non-zero port holds exactly that port, and it is
      in the table under it or its creating call is between bind and insert. */
  lemma LiveForwarderIsListed(schedule: seq<Action>, id: nat)
    ensures
      var s := Run(Init, schedule);
      Live(s, id) && s.calls[id].local != 0 ==>
        s.calls[id].sock.port == s.calls[id].local && Listed(s, id)
  {
    RunKeepsInv(Init, schedule);
    var s := Run(Init, schedule);
    if Live(s, id) {
      assert HoldsPort(s, id);
    }
  }

  /** The call is about to insert over the entry of a live forwarder. */
  predicate OverwritesLive(s: State, id: nat, local: int) {
    && id < |s.calls| && s.calls[id].Open? && s.calls[id].open.Insert? && s.calls[id].local == local
    && local in s.table && Live(s, s.table[local])
  }

  lemma RunFour(s: State, a: Action, b: Action, c: Action, d: Action)
    ensures Run(s, [a, b, c, d]) == Step(Step(Step(Step(s, a), b), c), d)
  {
    assert [a, b, c, d][1..] == [b, c, d] && [b, c, d][1..] == [c, d] && [c, d][1..] == [d] && [d][1..] == [];
    assert Run(Step(Step(s, a), b), [c, d]) == Run(Step(Step(Step(s, a), b), c), [d]);
    assert Run(Step(Step(Step(s, a), b), c), [d]) == Run(Step(Step(Step(Step(s, a), b), c), d), []);
  }

  lemma {:induction false} RunConcat(s: State, first: seq<Action>, second: seq<Action>)
    ensures Run(s, first + second) == Run(Run(s, first), second)
    decreases |first|
  {
    if first == [] {
      assert first + second == second;
    } else {
      assert (first + second)[1..] == first[1..] + second;
      RunConcat(Step(s, first[0]), first[1..], second);
    }
  }

  /** Two concurrent requests for port 0 both pass the check, bind different
      ports and insert under the same key. */
  lemma PortZeroOverwritesLive()
    ensures exists schedule, id :: OverwritesLive(Run(Init, schedule), id, 0)
  {
    var a, b := OpenPort(0, 0), BindRaised;
    var s1 := Step(Step(Step(Step(Init, a), a), Advance(0, b)), Advance(1, b));
    RunFour(Init, a, a, Advance(0, b), Advance(1, b));
    assert s1.calls == [Open(0, 0, Bind, Unbound), Open(0, 0, Bind, Unbound)];
    var c, d := Advance(0, Chosen(40000)), Advance(1, Chosen(40001));
    var s2 := Step(Step(Step(Step(s1, c), d), Advance(0, b)), ForeignRelease(0));
    RunFour(s1, c, d, Advance(0, b), ForeignRelease(0));
    assert OverwritesLive(s2, 1, 0);
    var first, second := [a, a, Advance(0, b), Advance(1, b)],
      [c, d, Advance(0, b), ForeignRelease(0)];
    RunConcat(Init, first, second);
    assert Run(Init, first + second) == s2;
  }

  /** An insert can overwrite a live forwarder exactly for local port 0; for
      every other port what it overwrites has been stopped. */
  lemma OverwritesLiveIff(local: int)
    ensures (exists schedule, id :: OverwritesLive(Run(Init, schedule), id, local)) <==> local == 0
  {
    PortZeroOverwritesLive();
    if local != 0 {
      forall schedule, id ensures !OverwritesLive(Run(Init, schedule), id, local) {
        var s := Run(Init, schedule);
        RunKeepsInv(Init, schedule);
        if OverwritesLive(s, id, local) {
          OverwritesOnlyStopped(s, id);
        }
      }
    }
  }

  /** A live forwarder that no table entry leads to and no call will list. */
  predicate Orphaned(s: State, id: nat, local: int) {
    Live(s, id) && s.calls[id].local == local && !Listed(s, id)
  }

  /** A forwarder whose entry is overwritten while it is live is an orphan then. */
  lemma OverwrittenIsOrphaned(s: State, id: nat, local: int, bind: BindResult)
    requires Inv(s) && OverwritesLive(s, id, local)
    ensures Orphaned(Step(s, Advance(id, bind)), s.table[local], local)
  {
    assert Created(s, s.table[local]);
  }

  /** A live forwarder can be missing from the table exactly if it was asked for
      local port 0. */
  lemma OrphanedIff(local: int)
    ensures (exists schedule, id: nat :: Orphaned(Run(Init, schedule), id, local)) <==> local == 0
  {
    if local == 0 {
      PortZeroOverwritesLive();
      var schedule, id: nat :| OverwritesLive(Run(Init, schedule), id, 0);
      var s, go := Run(Init, schedule), Advance(id, BindRaised);
      RunKeepsInv(Init, schedule);
      OverwrittenIsOrphaned(s, id, 0, BindRaised);
      RunConcat(Init, schedule, [go]);
      assert Run(Step(s, go), [go][1..]) == Step(s, go);
      assert Orphaned(Run(Init, schedule + [go]), s.table[0], 0);
    } else {
      forall schedule, id: nat ensures !Orphaned(Run(Init, schedule), id, local) {
        LiveForwarderIsListed(schedule, id);
      }
    }
  }

  /** The schedule does not contain the shutdown signal. */
  predicate Undisturbed(schedule: seq<Action>) {
    forall i :: 0 <= i < |schedule| ==> !schedule[i].ClosePorts?
  }

  lemma {:induction false} EntriesStay(s: State, schedule: seq<Action>)
    requires Undisturbed(schedule)
    ensures s.table.Keys <= Run(s, schedule).table.Keys
    decreases |schedule|
  {
    if schedule != [] {
      assert s.table.Keys <= Step(s, schedule[0]).table.Keys;
      EntriesStay(Step(s, schedule[0]), schedule[1..]);
    }
  }

  /** `ClosePort` releases the port but keeps its entry: from then on, until
      shutdown, every `OpenPort` that looks the port up is refused. */
  lemma ClosedPortStaysTaken(before: seq<Action>, closer: nat, after: seq<Action>, opener: nat, bind: BindResult)
    requires Undisturbed(after)
    requires
      var s := Run(Init, before);
      && closer < |s.calls| && s.calls[closer].Close? && s.calls[closer].close.Stop?
      && s.calls[closer].port in s.table
    ensures
      var s := Run(Init, before);
      var port, stopped := s.calls[closer].port, s.calls[closer].close.id;
      var closed := Step(s, Advance(closer, bind));
      var t := Run(closed, after);
      && closed.calls[closer].close == CloseDone(Ok)
      && Created(closed, stopped) && closed.calls[stopped].sock.Stopped?
      && closed.table == s.table
      && port in t.table
      && (opener < |t.calls| && t.calls[opener].Open? && t.calls[opener].local == port
          && t.calls[opener].open.CheckTable? ==>
            Step(t, Advance(opener, bind)).calls[opener].open == OpenDone(AddrInUse))
  {
    RunKeepsInv(Init, before);
    var s := Run(Init, before);
    assert CallInv(s, closer) && CallInv(s, s.calls[closer].close.id);
    EntriesStay(Step(s, Advance(closer, bind)), after);
  }

  predicate ClosersHaveEntries(s: State) {
    forall i :: 0 <= i < |s.calls| && s.calls[i].Close? ==>
      && (s.calls[i].close.Fetch? ==> s.calls[i].port in s.table)
      && s.calls[i].close != CloseDone(Raised)
  }

  lemma CloserKeepsEntry(s: State, id: nat)
    requires ClosersHaveEntries(s) && id < |s.calls| && s.calls[id].Close?
    ensures ClosersHaveEntries(CloseStep(s, id))
  {
    var c := s.calls[id];
    if c.close.Stop? {
      var t := s.(calls := s.calls[id := c.(close := CloseDone(Ok))]);
      assert ClosersHaveEntries(t);
      assert CloseStep(s, id) == StopForwarder(t, c.close.id);
    }
  }

  lemma StepKeepsEntries(s: State, a: Action)
    requires ClosersHaveEntries(s) && !a.ClosePorts?
    ensures ClosersHaveEntries(Step(s, a))
  {
    if a.Advance? && a.id < |s.calls| && s.calls[a.id].Close? {
      CloserKeepsEntry(s, a.id);
    }
  }

  lemma {:induction false} ClosersKeepEntries(s: State, schedule: seq<Action>)
    requires Undisturbed(schedule) && ClosersHaveEntries(s)
    ensures ClosersHaveEntries(Run(s, schedule))
    decreases |schedule|
  {
    if schedule != [] {
      StepKeepsEntries(s, schedule[0]);
      ClosersKeepEntries(Step(s, schedule[0]), schedule[1..]);
    }
  }

  /** Without a shutdown in between, the fetch after `ClosePort`'s check cannot
      fail. */
  lemma CloseRaisesOnlyAtShutdown(schedule: seq<Action>, id: nat)
    requires Undisturbed(schedule)
    ensures
      var s := Run(Init, schedule);
      id < |s.calls| && s.calls[id].Close? ==> s.calls[id].close != CloseDone(Raised)
  {
    ClosersKeepEntries(Init, schedule);
  }

  lemma {:induction false} RequestStays(s: State, id: nat, remote: int, local: int, schedule: seq<Action>)
    requires id < |s.calls| && s.calls[id].Open? && s.calls[id].remote == remote && s.calls[id].local == local
    ensures
      var t := Run(s, schedule);
      id < |t.calls| && t.calls[id].Open? && t.calls[id].remote == remote && t.calls[id].local == local
    decreases |schedule|
  {
    if schedule != [] {
      RequestStays(Step(s, schedule[0]), id, remote, local, schedule[1..]);
    }
  }

  /** Whatever runs beside it, a request is served for the worker port it names,
      and a forwarder it brings up listens on the local port it names, or on the
      same number as the worker port if it names none. */
  lemma ForwarderServesRequest(before: seq<Action>, port: int, localPort: int, after: seq<Action>)
    ensures
      var s := Run(Init, before);
      var id := |s.calls|;
      var t := Run(Step(s, OpenPort(port, localPort)), after);
      && id < |t.calls| && t.calls[id].Open? && t.calls[id].remote == port
      && (Live(t, id) && localPort != 0 ==> t.calls[id].sock.port == localPort)
      && (Live(t, id) && localPort == 0 && port != 0 ==> t.calls[id].sock.port == port)
  {
    var s := Run(Init, before);
    var id := |s.calls|;
    RunKeepsInv(Init, before);
    StepKeepsInv(s, OpenPort(port, localPort));
    RunKeepsInv(Step(s, OpenPort(port, localPort)), after);
    RequestStays(Step(s, OpenPort(port, localPort)), id, port, EffectiveLocal(port, localPort), after);
    var t := Run(Step(s, OpenPort(port, localPort)), after);
    assert Live(t, id) ==> HoldsPort(t, id);
  }

  /** A call whose three steps are not interrupted succeeds exactly if its local
      port is not in the table, the bind raises nothing, and the port it gets, the
      system's choice for local port 0, is real and free; it then binds and lists
      it. It answers EADDRINUSE exactly if the port is listed or the system says
      that it is taken, and raises otherwise; either way neither table nor ports
      change. */
  lemma UninterruptedOpen(s: State, port: int, localPort: int, bind: BindResult)
    ensures
      var local, id := EffectiveLocal(port, localPort), |s.calls|;
      var used := if local == 0 && bind.Chosen? then bind.port else local;
      var binds := bind.Chosen? && 0 <= local <= 65535;
      var free := 1 <= used <= 65535 && used !in s.bound;
      var go := Advance(id, bind);
      var t := Run(s, [OpenPort(port, localPort), go, go, go]);
      && |t.calls| == |s.calls| + 1 && t.calls[..id] == s.calls
      && t.calls[id].Open? && t.calls[id].remote == port && t.calls[id].local == local
      && t.calls[id].open.OpenDone?
      && (t.calls[id].open.openReply == Ok <==> local !in s.table && binds && free)
      && (t.calls[id].open.openReply == AddrInUse <==> local in s.table || (binds && !free))
      && (t.calls[id].open.openReply == Raised <==> local !in s.table && !binds)
      && (t.calls[id].open.openReply == Ok ==>
            && t.table == s.table[local := id] && t.bound == s.bound[used := Ours(id)]
            && t.calls[id].sock == Listening(used))
      && (t.calls[id].open.openReply != Ok ==>
            t.table == s.table && t.bound == s.bound && t.calls[id].sock == Unbound)
  {
    var id := |s.calls|;
    var go := Advance(id, bind);
    RunFour(s, OpenPort(port, localPort), go, go, go);
    var s1 := Step(s, OpenPort(port, localPort));
    var s2 := Step(s1, go);
    var s3 := Step(s2, go);
    if s2.calls[id].open.OpenDone? {
      assert s3 == s2 && Step(s3, go) == s2;
    } else if s3.calls[id].open.OpenDone? {
      assert Step(s3, go) == s3;
    }
  }

  /** An uninterrupted `ClosePort` succeeds exactly if the port is in the table;
      the forwarder listed there is then not live, the port it held is free, and
      the table, the other ports and the other calls are as before. Otherwise it
      answers NOT_FOUND and changes nothing. */
  lemma UninterruptedClose(s: State, port: int, bind: BindResult)
    requires Inv(s)
    ensures
      var id, go := |s.calls|, Advance(|s.calls|, bind);
      var t := Run(s, [ClosePort(port), go, go, go]);
      && |t.calls| == |s.calls| + 1 && t.table == s.table
      && t.calls[id] == Close(port, CloseDone(if port in s.table then Ok else NotFound))
      && (port !in s.table ==> t.calls[..id] == s.calls && t.bound == s.bound)
      && (port in s.table ==>
            var listed := s.table[port];
            && !Live(t, listed) && t.calls[..id] == s.calls[listed := t.calls[listed]]
            && (!Live(s, listed) ==> t.bound == s.bound)
            && (Live(s, listed) ==> t.bound == s.bound - {s.calls[listed].sock.port})
            && (Live(s, listed) && port != 0 ==> port !in t.bound))
  {
    var id, go := |s.calls|, Advance(|s.calls|, bind);
    RunFour(s, ClosePort(port), go, go, go);
    var s1 := Step(s, ClosePort(port));
    assert s1.calls[id] == Close(port, CheckListed);
    var s2 := Step(s1, go);
    if port in s.table {
      var listed := s.table[port];
      assert Created(s, listed);
      assert Live(s, listed) ==> HoldsPort(s, listed);
      assert s2.calls[id] == Close(port, Fetch);
      var s3 := Step(s2, go);
      assert s3.calls[id] == Close(port, Stop(listed));
      assert s3.calls[..id] == s.calls;
      var done := s3.(calls := s3.calls[id := Close(port, CloseDone(Ok))]);
      assert Step(s3, go) == StopForwarder(done, listed);
      assert Step(s3, go).calls[..id] == s.calls[listed := Step(s3, go).calls[listed]];
    } else {
      assert s2.calls[id] == Close(port, CloseDone(NotFound));
      assert Step(s2, go) == s2;
      assert s2.calls[..id] == s.calls;
    }
  }

  /** The shutdown leaves an empty table, stops every forwarder that was in it and
      frees their ports, and touches nothing else. */
  lemma ShutdownStopsListed(s: State)
    requires Inv(s)
    ensures
      var t := Step(s, ClosePorts);
      && t.table == map[] && |t.calls| == |s.calls|
      && (forall p :: p in s.table ==> !Live(t, s.table[p]))
      && (forall id: nat :: id < |s.calls| && id !in s.table.Values ==> t.calls[id] == s.calls[id])
      && (forall p :: p in t.bound <==> p in s.bound && !(s.bound[p].Ours? && s.bound[p].id in s.table.Values))
      && (forall p :: p in t.bound ==> t.bound[p] == s.bound[p])
  {
    forall p | p in s.table ensures !Live(Step(s, ClosePorts), s.table[p]) {
      assert Created(s, s.table[p]);
    }
  }

  // -------------------------------------------------- GetPorts and info

  /** An entry of a `GetPortsResponse`; 0 is an unset `local_port`. */
  datatype PortEntry = PortEntry(port: int, localPort: int)

  /** The entry `GetPorts` adds for a forwarder listed under a port. */
  function EntryFor(s: State, port: int): PortEntry
    requires port in s.table && s.table[port] < |s.calls| && s.calls[s.table[port]].Open?
  {
    var pf := s.calls[s.table[port]];
    PortEntry(port, if pf.local != port then pf.local else 0)
  }

  /** What the client's `info` makes of a response. */
  function InfoOf(entries: seq<PortEntry>): map<int, int> {
    if entries == [] then map[]
    else
      var e := entries[|entries| - 1];
      InfoOf(entries[..|entries| - 1])[e.port := if e.localPort != 0 then e.localPort else e.port]
  }

  /** In every reachable state the response lists each table key as its own
      local port. That names the port on the worker exactly if the request asked
      for the same number on both sides. */
  lemma EntryIsRightIff(schedule: seq<Action>, port: int)
    requires port in Run(Init, schedule).table
    ensures
      var s := Run(Init, schedule);
      && s.table[port] < |s.calls| && s.calls[s.table[port]].Open?
      && EntryFor(s, port) == PortEntry(port, 0)
      && (EntryFor(s, port).port == s.calls[s.table[port]].remote <==>
            s.calls[s.table[port]].remote == s.calls[s.table[port]].local)
  {
    RunKeepsInv(Init, schedule);
    var s := Run(Init, schedule);
    assert Created(s, s.table[port]);
  }

  /** Every pair of ports is listed in some run, so every worker port that differs
      from its local port can be misreported. */
  lemma EveryPairIsListed(remote: int, local: int)
    requires 1 <= local <= MAX_PORT
    ensures exists schedule ::
              var s := Run(Init, schedule);
              && local in s.table && s.table[local] < |s.calls| && s.calls[s.table[local]].Open?
              && s.calls[s.table[local]].remote == remote
              && (EntryFor(s, local).port != remote <==> remote != local)
  {
    var go := Advance(0, Chosen(0));
    var schedule := [OpenPort(remote, local), go, go, go];
    UninterruptedOpen(Init, remote, local, Chosen(0));
    assert local in Run(Init, schedule).table;
    EntryIsRightIff(schedule, local);
  }

  /** `info` maps each port of the response to what its last entry says: its local
      port, or itself if that is unset. */
  lemma {:induction false} InfoOfLast(entries: seq<PortEntry>, k: nat)
    requires k < |entries| && forall i :: k < i < |entries| ==> entries[i].port != entries[k].port
    ensures entries[k].port in InfoOf(entries)
    ensures entries[k].localPort != 0 ==> InfoOf(entries)[entries[k].port] == entries[k].localPort
    ensures entries[k].localPort == 0 ==> InfoOf(entries)[entries[k].port] == entries[k].port
  {
    if k < |entries| - 1 {
      InfoOfLast(entries[..|entries| - 1], k);
    }
  }

  lemma {:induction false} InfoIsIdentity(entries: seq<PortEntry>)
    requires forall i :: 0 <= i < |entries| ==> entries[i].localPort == 0
    ensures InfoOf(entries).Keys == set i | 0 <= i < |entries| :: entries[i].port
    ensures forall p :: p in InfoOf(entries) ==> InfoOf(entries)[p] == p
  {
    if entries != [] {
      var n := |entries| - 1;
      InfoIsIdentity(entries[..n]);
      forall p ensures p in InfoOf(entries) <==> exists i :: 0 <= i < |entries| && entries[i].port == p {
        if i :| 0 <= i < n && entries[i].port == p {
          assert entries[..n][i].port == p;
        }
      }
    }
  }
}
