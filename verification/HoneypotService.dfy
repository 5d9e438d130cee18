/**
 The honeypot service object: a fixed array of port slots copied by value, and heap-allocated
 listeners. Proved against the table functions, with every live listener owned by one live slot.
 */
module HoneypotService {
  import opened HoneypotPorts

  class WiFiServer {
    const port: nat
    var listening: bool

    constructor (port: nat)
      ensures this.port == port && !listening
    {
      this.port := port;
      listening := false;
    }

    method Begin()
      modifies this
      ensures listening
    {
      listening := true;
    }

    method End()
      modifies this
      ensures !listening
    {
      listening := false;
    }
  }

  datatype HoneypotPort = HoneypotPort(port: nat, service: Service, enabled: bool, server: WiFiServer?)

  // ---------- Slots and the listeners they own ----------

  function TableOf(slots: seq<HoneypotPort>): (t: PortTable)
    ensures |t| == |slots| && forall i :: 0 <= i < |slots| ==> t[i] == (slots[i].port, slots[i].service)
  {
    if slots == [] then [] else [(slots[0].port, slots[0].service)] + TableOf(slots[1..])
  }

  /** The listeners the slots point to. */
  ghost function Servers(slots: seq<HoneypotPort>): set<WiFiServer> {
    if slots == [] then {} else (if slots[0].server != null then {slots[0].server} else {}) + Servers(slots[1..])
  }

  lemma {:induction false} TableAppend(slots: seq<HoneypotPort>, slot: HoneypotPort)
    ensures TableOf(slots + [slot]) == TableOf(slots) + [(slot.port, slot.service)]
  {
  }

  lemma {:induction false} ServersAppend(slots: seq<HoneypotPort>, slot: HoneypotPort)
    ensures Servers(slots + [slot]) == Servers(slots) + if slot.server != null then {slot.server} else {}
  {
    ServersConcat(slots, [slot]);
    assert [slot][1..] == [];
  }

  /** Every slot has a listener on its own port, or none has. */
  ghost predicate Serving(slots: seq<HoneypotPort>, on: bool) {
    forall i :: 0 <= i < |slots| ==>
      slots[i].enabled && (slots[i].server != null <==> on)
        && (slots[i].server != null ==> slots[i].server.port == slots[i].port)
  }

  lemma {:induction false} ServersConcat(a: seq<HoneypotPort>, b: seq<HoneypotPort>)
    ensures Servers(a + b) == Servers(a) + Servers(b)
    decreases |a|
  {
    if a == [] {
      assert a + b == b;
    } else {
      ServersConcat(a[1..], b);
      assert (a + b)[1..] == a[1..] + b;
    }
  }

  lemma {:induction false} ServersOf(slots: seq<HoneypotPort>, x: WiFiServer)
    ensures x in Servers(slots) <==> exists i :: 0 <= i < |slots| && slots[i].server == x
    decreases |slots|
  {
    if slots != [] {
      ServersOf(slots[1..], x);
      if i :| 0 <= i < |slots| && slots[i].server == x {
        if i > 0 { assert slots[1..][i - 1].server == x; }
      }
      if i :| 0 <= i < |slots[1..]| && slots[1..][i].server == x { assert slots[i + 1].server == x; }
    }
  }

  lemma {:induction false} NoServers(slots: seq<HoneypotPort>)
    requires Serving(slots, false)
    ensures Servers(slots) == {}
  {
    forall x | x in Servers(slots)
      ensures false
    {
      ServersOf(slots, x);
    }
  }

  /** Slots of different ports point to different listeners. */
  lemma {:induction false} ServerElsewhere(slots: seq<HoneypotPort>, i: nat, on: bool)
    requires WellFormed(TableOf(slots)) && Serving(slots, on) && i < |slots| && slots[i].server != null
    ensures slots[i].server !in Servers(slots[..i] + slots[i + 1..])
  {
    var others := slots[..i] + slots[i + 1..];
    ServersOf(others, slots[i].server);
    forall k | 0 <= k < |others|
      ensures others[k].server != slots[i].server
    {
      var l := if k < i then k else k + 1;
      assert others[k] == slots[l] && TableOf(slots)[l].0 != TableOf(slots)[i].0;
    }
  }

  /** Taking a slot out takes exactly its listener out. */
  lemma {:induction false} ServersWithout(slots: seq<HoneypotPort>, i: nat, on: bool)
    requires WellFormed(TableOf(slots)) && Serving(slots, on) && i < |slots|
    ensures Servers(slots[..i] + slots[i + 1..]) == if slots[i].server != null then Servers(slots) - {slots[i].server}
      else Servers(slots)
  {
    assert slots == slots[..i] + ([slots[i]] + slots[i + 1..]);
    ServersConcat(slots[..i], [slots[i]] + slots[i + 1..]);
    ServersConcat([slots[i]], slots[i + 1..]);
    ServersConcat(slots[..i], slots[i + 1..]);
    assert [slots[i]][1..] == [];
    if slots[i].server != null { ServerElsewhere(slots, i, on); }
  }

  /** The first i slots stopped. */
  function Stopped(slots: seq<HoneypotPort>, i: nat): (r: seq<HoneypotPort>)
    requires i <= |slots|
    ensures |r| == |slots| && TableOf(r) == TableOf(slots)
  {
    seq(|slots|, k requires 0 <= k < |slots| => if k < i then slots[k].(server := null) else slots[k])
  }

  /** The first i slots have got listeners on their ports; nothing else changed. */
  ghost predicate Started(before: seq<HoneypotPort>, slots: seq<HoneypotPort>, i: nat) {
    && |slots| == |before| && i <= |slots|
    && (forall k :: 0 <= k < i ==>
          slots[k].server != null && slots[k].server.port == slots[k].port
            && slots[k].(server := null) == before[k].(server := null))
    && (forall k :: i <= k < |slots| ==> slots[k] == before[k])
  }

  lemma {:induction false} StartedAll(before: seq<HoneypotPort>, slots: seq<HoneypotPort>)
    requires Serving(before, false) && Started(before, slots, |slots|)
    ensures Serving(slots, true) && TableOf(slots) == TableOf(before)
  {
    forall k | 0 <= k < |slots|
      ensures slots[k].enabled == before[k].enabled && slots[k].port == before[k].port
        && slots[k].service == before[k].service
    {
      assert slots[k].(server := null) == before[k].(server := null);
    }
  }

  // ---------- The object ----------

  class Honeypot {
    const ports: array<HoneypotPort>
    var portCount: nat
    var enabled: bool
    /** The listeners allocated and not yet deleted. */
    ghost var live: set<WiFiServer>

    /** The live slots; the array may hold stale copies beyond them. */
    ghost function Slots(): seq<HoneypotPort>
      reads this, ports
      requires portCount <= ports.Length
    {
      ports[..portCount]
    }

    ghost function Table(): PortTable
      reads this, ports
      requires portCount <= ports.Length
    {
      TableOf(Slots())
    }

    /** Slots serve or not, and the live listeners are exactly theirs: none leaked, none deleted twice. */
    ghost predicate Consistent(on: bool)
      reads this, ports, live
    {
      && ports.Length == MAX_PORTS && portCount <= MAX_PORTS && WellFormed(Table())
      && Serving(Slots(), on) && live == Servers(Slots()) && forall s :: s in live ==> s.listening
    }

    /** Each live slot has its listener exactly when the service is enabled. */
    ghost predicate Valid()
      reads this, ports, live
    {
      Consistent(enabled)
    }

    constructor ()
      ensures Valid() && !enabled && Table() == [] && live == {} && fresh(ports)
    {
      ports := new HoneypotPort[MAX_PORTS](_ => HoneypotPort(0, Ssh, false, null));
      portCount, enabled, live := 0, false, {};
    }

    method StopListeners(ghost on: bool)
      requires Consistent(on)
      modifies ports, this`live, live
      ensures Consistent(false) && live == {} && Table() == old(Table())
    {
      ghost var before := Slots();
      assert before[0..] == before;
      for i := 0 to portCount
        invariant Slots() == Stopped(before, i) && ports.Length == MAX_PORTS
        invariant live == Servers(before[i..]) && live <= old(live)
      {
        assert before[i..][1..] == before[i + 1..];
        var server := ports[i].server;
        if server != null {
          LaterServers(before, i, on);
          server.End();
          live := live - {server};
          ports[i] := ports[i].(server := null);
        }
      }
      assert before[portCount..] == [];
      NoServers(Slots());
    }

    /** A new listener for one slot. */
    method StartSlot(i: nat)
      requires i < portCount <= ports.Length && ports[i].server == null
      modifies ports, this`live
      ensures fresh(ports[i].server) && ports[i].server.listening && ports[i].server.port == old(ports[i].port)
      ensures live == old(live) + {ports[i].server}
      ensures ports[i] == old(ports[i]).(server := ports[i].server) && Slots() == old(Slots())[i := ports[i]]
    {
      var server := new WiFiServer(ports[i].port);
      server.Begin();
      ports[i] := ports[i].(server := server);
      live := live + {server};
    }

    method StartListeners()
      requires Consistent(false)
      modifies ports, this`live
      ensures Consistent(true) && fresh(live - old(live)) && Table() == old(Table())
    {
      ghost var before := Slots();
      NoServers(before);
      for i := 0 to portCount
        invariant ports.Length == MAX_PORTS && |Slots()| == |before| && Started(before, Slots(), i)
        invariant live == Servers(Slots()[..i]) && fresh(live) && forall s :: s in live ==> s.listening
      {
        ghost var front := Slots()[..i];
        if ports[i].enabled && ports[i].server == null { StartSlot(i); }
        assert Slots()[..i + 1] == front + [ports[i]];
        ServersAppend(front, ports[i]);
      }
      assert Slots()[..portCount] == Slots();
      StartedAll(before, Slots());
    }

    method AddPort(port: nat, service: Service)
      requires Valid()
      modifies this`portCount, this`live, ports
      ensures Valid() && enabled == old(enabled) && Table() == Added(old(Table()), port, service)
        && fresh(live - old(live))
    {
      if portCount >= MAX_PORTS { return; }
      for i := 0 to portCount
        invariant forall j :: 0 <= j < i ==> ports[j].port != port
      {
        if ports[i].port == port {
          assert Table()[i].0 == port;
          return;
        }
      }
      assert !Configured(Table(), port);
      AppendSlot(port, service);
    }

    /** A new slot at the end, listening at once if the service is enabled; a stale copy there is overwritten. */
    method AppendSlot(port: nat, service: Service)
      requires Valid() && portCount < MAX_PORTS && !Configured(Table(), port)
      modifies this`portCount, this`live, ports
      ensures Valid() && enabled == old(enabled) && Table() == old(Table()) + [(port, service)]
        && fresh(live - old(live))
    {
      ghost var before := Slots();
      AddedWellFormed(Table(), port, service);
      ports[portCount] := HoneypotPort(port, service, true, null);
      portCount := portCount + 1;
      assert Slots() == before + [ports[portCount - 1]];
      if enabled { StartSlot(portCount - 1); }
      assert Slots() == before + [ports[portCount - 1]];
      TableAppend(before, ports[portCount - 1]);
      ServersAppend(before, ports[portCount - 1]);
    }

    method RemovePort(port: nat)
      requires Valid()
      modifies this`portCount, this`live, ports, live
      ensures Valid() && enabled == old(enabled) && Table() == Removed(old(Table()), port) && live <= old(live)
    {
      for i := 0 to portCount
        invariant forall j :: 0 <= j < i ==> ports[j].port != port
      {
        if ports[i].port == port {
          RemovedAt(Table(), i, port);
          RemoveSlot(i);
          return;
        }
      }
      NothingRemoved(Table(), port);
    }

    /** The later slots move down by one; the last one stays behind as a stale copy. */
    method ShiftDown(i: nat)
      requires i < portCount <= ports.Length
      modifies ports
      ensures ports[..portCount - 1] == old(ports[..i]) + old(ports[i + 1..portCount])
    {
      ghost var before := ports[..];
      for j := i to portCount - 1
        invariant forall k :: 0 <= k < i || j <= k < ports.Length ==> ports[k] == before[k]
        invariant forall k :: i <= k < j ==> ports[k] == before[k + 1]
      {
        ports[j] := ports[j + 1];
      }
    }

    /** Ends and deletes the slot's listener, if it has one. */
    method DeleteListener(i: nat)
      requires Valid() && i < portCount
      modifies this`live, live
      ensures live == if ports[i].server != null then old(live) - {ports[i].server} else old(live)
      ensures forall s :: s in live ==> s.listening
    {
      var server := ports[i].server;
      if server != null {
        ServersOf(Slots(), server);
        server.End();
        live := live - {server};
      }
    }

    method RemoveSlot(i: nat)
      requires Valid() && i < portCount
      modifies this`portCount, this`live, ports, live
      ensures Valid() && enabled == old(enabled) && live <= old(live)
      ensures Table() == old(Table())[..i] + old(Table())[i + 1..]
    {
      ghost var before := Slots();
      ServersWithout(before, i, enabled);
      WithoutSlot(before, i, enabled);
      DeleteListener(i);
      ShiftDown(i);
      portCount := portCount - 1;
      assert Slots() == before[..i] + before[i + 1..];
    }

    method ClearPorts(ghost on: bool)
      requires Consistent(on)
      modifies this`portCount, this`live, ports, live
      ensures Valid() && enabled == old(enabled) && Table() == [] && live == {}
    {
      StopListeners(on);
      portCount := 0;
    }

    method SetEnabled(enable: bool)
      requires Valid()
      modifies this`enabled, this`live, ports, live
      ensures Valid() && enabled == enable && Table() == old(Table()) && fresh(live - old(live))
    {
      if enable == enabled { return; }
      enabled := enable;
      if enable { StartListeners(); } else { StopListeners(true); }
    }

    method ConfigureFromJson(requests: seq<(nat, string)>, enable: bool)
      requires Valid()
      modifies this, ports, live
      ensures Valid() && enabled == enable && Table() == GrantedPorts(requests, |requests|) && fresh(live - old(live))
    {
      StopListeners(enabled);
      ClearPorts(false);
      for i := 0 to |requests|
        invariant Valid() && fresh(live) && Table() == GrantedPorts(requests, i)
      {
        AddPort(requests[i].0, ServiceOf(requests[i].1));
        AddedIsGranted(requests, i);
      }
      SetEnabled(enable);
    }
  }

  lemma {:induction false} LaterServers(slots: seq<HoneypotPort>, i: nat, on: bool)
    requires WellFormed(TableOf(slots)) && Serving(slots, on) && i < |slots| && slots[i].server != null
    ensures slots[i].server !in Servers(slots[i + 1..])
  {
    ServerElsewhere(slots, i, on);
    ServersConcat(slots[..i], slots[i + 1..]);
  }

  lemma {:induction false} WithoutSlot(slots: seq<HoneypotPort>, i: nat, on: bool)
    requires WellFormed(TableOf(slots)) && Serving(slots, on) && i < |slots|
    ensures
      var rest := slots[..i] + slots[i + 1..];
      Serving(rest, on) && TableOf(rest) == TableOf(slots)[..i] + TableOf(slots)[i + 1..] && WellFormed(TableOf(rest))
  {
    var rest := slots[..i] + slots[i + 1..];
    forall k | 0 <= k < |rest|
      ensures rest[k] == slots[if k < i then k else k + 1]
    {
    }
    assert TableOf(rest) == TableOf(slots)[..i] + TableOf(slots)[i + 1..];
  }

  lemma {:induction false} NothingRemoved(t: PortTable, port: nat)
    requires forall i :: 0 <= i < |t| ==> t[i].0 != port
    ensures Removed(t, port) == t
  {
    if t != [] {
      assert forall i :: 0 <= i < |t[1..]| ==> t[1..][i] == t[i + 1];
      NothingRemoved(t[1..], port);
    }
  }

  lemma {:induction false} RemovedAt(t: PortTable, i: nat, port: nat)
    requires i < |t| && t[i].0 == port && forall j :: 0 <= j < i ==> t[j].0 != port
    ensures Removed(t, port) == t[..i] + t[i + 1..]
  {
    if i > 0 {
      assert forall j :: 0 <= j < |t[1..]| ==> t[1..][j] == t[j + 1];
      RemovedAt(t[1..], i - 1, port);
      assert t[..i] == [t[0]] + t[1..][..i - 1] && t[1..][i..] == t[i + 1..];
    }
  }
}
