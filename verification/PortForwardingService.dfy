/** The `PortForwardingService` object over the step functions of `PortTable`,
    and the daemon client's `info`. */
module PortForwarding {
  import opened Prelude
  import opened PortTable

  class PortForwardingService {
    var ports: map<int, nat>
    var bound: map<int, Owner>
    var calls: seq<Call>

    ghost function View(): State
      reads this
    {
      State(ports, bound, calls)
    }

    constructor ()
      ensures View() == Init
    {
      ports, bound, calls := map[], map[], [];
    }

    /** An `OpenPort` request reaches a pool thread. */
    method OpenPort(port: int, localPort: int) returns (id: nat)
      modifies this`calls
      ensures View() == Step(old(View()), Action.OpenPort(port, localPort)) && id == old(|calls|)
    {
      id := |calls|;
      var local := if localPort != 0 then localPort else port;
      calls := calls + [Open(port, local, CheckTable, Unbound)];
    }

    method AdvanceOpen(id: nat, bind: BindResult)
      requires id < |calls| && calls[id].Open?
      modifies this
      ensures View() == OpenStep(old(View()), id, bind)
    {
      var c := calls[id];
      match c.open
      case CheckTable =>
        calls := calls[id := c.(open := if c.local in ports then OpenDone(AddrInUse) else Bind)];
      case Bind =>
        if bind.BindRaised? || !(0 <= c.local <= MAX_PORT) {
          calls := calls[id := c.(open := OpenDone(Raised))];
          return;
        }
        var port := if c.local == 0 then bind.port else c.local;
        if port in bound || !(1 <= port <= MAX_PORT) {
          calls := calls[id := c.(open := OpenDone(AddrInUse))];
        } else {
          bound := bound[port := Ours(id)];
          calls := calls[id := c.(open := Insert, sock := Listening(port))];
        }
      case Insert =>
        ports := ports[c.local := id];
        calls := calls[id := c.(open := OpenDone(Ok))];
      case OpenDone(_) =>
    }

    /** `PortForwarder.stop`. */
    method StopForwarder(id: nat)
      modifies this`bound, this`calls
      ensures View() == PortTable.StopForwarder(old(View()), id)
    {
      if id < |calls| && calls[id].Open? && calls[id].sock.Listening? {
        bound := bound - {calls[id].sock.port};
        calls := calls[id := calls[id].(sock := Stopped)];
      }
    }

    method ClosePort(port: int) returns (id: nat)
      modifies this`calls
      ensures View() == Step(old(View()), Action.ClosePort(port)) && id == old(|calls|)
    {
      id := |calls|;
      calls := calls + [Close(port, CheckListed)];
    }

    method AdvanceClose(id: nat)
      requires id < |calls| && calls[id].Close?
      modifies this
      ensures View() == CloseStep(old(View()), id)
    {
      var c := calls[id];
      match c.close
      case CheckListed =>
        calls := calls[id := c.(close := if c.port in ports then Fetch else CloseDone(NotFound))];
      case Fetch =>
        calls := calls[id := c.(close := if c.port in ports then Stop(ports[c.port]) else CloseDone(Raised))];
      case Stop(forwarder) =>
        calls := calls[id := c.(close := CloseDone(Ok))];
        StopForwarder(forwarder);
      case CloseDone(_) =>
    }

    /** Stops the forwarders of the table one after the other. */
    method ClosePorts()
      requires Inv(View())
      modifies this
      ensures View() == StopAll(old(View())) && Inv(View())
    {
      ghost var s := View();
      var todo := ports.Values;
      assert StopSome(s, {}).bound == s.bound;
      while todo != {}
        invariant todo <= s.table.Values && ports == s.table
        invariant View() == StopSome(s, s.table.Values - todo) && Inv(View())
        decreases todo
      {
        ghost var some := Pick(todo);
        var id :| id in todo;
        ghost var done := s.table.Values - todo;
        assert Created(View(), id) by {
          var p := KeyOf(s.table, id);
        }
        StopOneMore(s, done, id);
        StopKeepsInv(View(), id);
        StopForwarder(id);
        todo := todo - {id};
        assert s.table.Values - todo == done + {id};
      }
      assert s.table.Values - {} == s.table.Values;
      ports := map[];
      StopAllKeepsInv(s);
    }

    /** One entry for each key of the table. */
    method GetPorts() returns (response: seq<PortEntry>)
      requires Inv(View())
      ensures |response| == |ports|
      ensures forall p :: p in ports ==> EntryFor(View(), p) in response
      ensures forall i :: 0 <= i < |response| ==>
                response[i].port in ports && response[i] == EntryFor(View(), response[i].port)
      ensures forall i, j :: 0 <= i < j < |response| ==> response[i].port != response[j].port
    {
      response := [];
      var todo := ports.Keys;
      while todo != {}
        invariant todo <= ports.Keys && |response| + |todo| == |ports.Keys|
        invariant forall p :: p in ports.Keys - todo ==> EntryFor(View(), p) in response
        invariant forall i :: 0 <= i < |response| ==>
                    response[i].port in ports.Keys - todo && response[i] == EntryFor(View(), response[i].port)
        invariant forall i, j :: 0 <= i < j < |response| ==> response[i].port != response[j].port
        decreases todo
      {
        ghost var some := Pick(todo);
        var p :| p in todo;
        assert Created(View(), ports[p]);
        var local := calls[ports[p]].local;
        response := response + [PortEntry(p, if local != p then local else 0)];
        todo := todo - {p};
        assert response[|response| - 1] == EntryFor(View(), p);
      }
    }

    /** `info` asked of this daemon: every key of the table, closed ports
        included, mapped to itself. */
    method PortInfo() returns (result: map<int, int>)
      requires Inv(View())
      ensures result == map p | p in ports :: p
    {
      var response := GetPorts();
      forall p | p in ports ensures EntryFor(View(), p) == PortEntry(p, 0) {
        assert Created(View(), ports[p]);
      }
      InfoOfKeys(response, ports.Keys);
      result := Info(response);
    }
  }

  /** What `info` makes of a response with one entry for each of these keys. */
  lemma InfoOfKeys(response: seq<PortEntry>, keys: set<int>)
    requires forall i :: 0 <= i < |response| ==> response[i].localPort == 0 && response[i].port in keys
    requires forall p :: p in keys ==> PortEntry(p, 0) in response
    ensures InfoOf(response) == map p | p in keys :: p
  {
    InfoIsIdentity(response);
    forall p | p in keys ensures p in InfoOf(response) {
      var i :| 0 <= i < |response| && response[i] == PortEntry(p, 0);
      assert response[i].port == p;
    }
  }

  /** The loop of `Client.info` over a response. */
  method Info(response: seq<PortEntry>) returns (result: map<int, int>)
    ensures result == InfoOf(response)
  {
    result := map[];
    for i := 0 to |response|
      invariant result == InfoOf(response[..i])
    {
      var p := response[i];
      assert response[..i + 1][..i] == response[..i];
      if p.localPort != 0 {
        result := result[p.port := p.localPort];
      } else {
        result := result[p.port := p.port];
      }
    }
    assert response[..|response|] == response;
  }
}
