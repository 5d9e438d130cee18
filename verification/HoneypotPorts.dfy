/** The honeypot's port table and its listeners (esp32-firmware/src/honeypot_service.cpp). */
module HoneypotPorts {

  const MAX_PORTS := 8

  datatype Service = Ssh | Telnet | Http | Ftp | Mysql | Redis | Smb | Generic

  function ServiceOf(name: string): Service {
    if name == "ssh" then Ssh else if name == "telnet" then Telnet
    else if name == "http" then Http else if name == "ftp" then Ftp
    else if name == "mysql" then Mysql else if name == "redis" then Redis else if name == "smb" then Smb else Generic
  }

  /** Seven services go by their names; any other name is a generic one. */
  lemma ServiceNames(name: string)
    ensures ServiceOf("ssh") == Ssh && ServiceOf("telnet") == Telnet && ServiceOf("http") == Http
    ensures ServiceOf("ftp") == Ftp && ServiceOf("mysql") == Mysql && ServiceOf("redis") == Redis
    ensures ServiceOf("smb") == Smb
    ensures ServiceOf(name) == Generic <==> name !in ["ssh", "telnet", "http", "ftp", "mysql", "redis", "smb"]
  {
    assert |"ssh"| == |"ftp"| == |"smb"| == 3 && |"http"| == 4 && |"mysql"| == |"redis"| == 5 && |"telnet"| == 6;
    assert "ssh"[1] == 's' && "ftp"[1] == 't' && "smb"[1] == 'm' && "mysql"[0] == 'm' && "redis"[0] == 'r';
  }

  // ---------- The table the operations maintain ----------

  /** Configured ports with their services, in slot order. */
  type PortTable = seq<(nat, Service)>

  predicate Configured(t: PortTable, port: nat) {
    exists i :: 0 <= i < |t| && t[i].0 == port
  }

  ghost predicate WellFormed(t: PortTable) {
    |t| <= MAX_PORTS && forall i, j :: 0 <= i < j < |t| ==> t[i].0 != t[j].0
  }

  function Added(t: PortTable, port: nat, service: Service): PortTable {
    if |t| >= MAX_PORTS || Configured(t, port) then t else t + [(port, service)]
  }

  function Removed(t: PortTable, port: nat): PortTable {
    if t == [] then [] else if t[0].0 == port then t[1..] else [t[0]] + Removed(t[1..], port)
  }

  function AddedAll(t: PortTable, requests: seq<(nat, string)>): PortTable
    decreases |requests|
  {
    if requests == [] then t else AddedAll(Added(t, requests[0].0, ServiceOf(requests[0].1)), requests[1..])
  }

  lemma AddedWellFormed(t: PortTable, port: nat, service: Service)
    requires WellFormed(t)
    ensures WellFormed(Added(t, port, service))
  {
  }

  lemma {:induction false} RemovedPorts(t: PortTable, port: nat)
    requires WellFormed(t)
    ensures WellFormed(Removed(t, port)) && !Configured(Removed(t, port), port)
    ensures forall x :: x in Removed(t, port) <==> x in t && x.0 != port
  {
    if t != [] {
      assert WellFormed(t[1..]);
      RemovedPorts(t[1..], port);
      var rest := Removed(t[1..], port);
      forall i | 0 <= i < |rest|
        ensures rest[i].0 != t[0].0
      {
        assert rest[i] in t[1..];
      }
      RemovedLength(t, port);
    }
  }

  lemma {:induction false} RemovedLength(t: PortTable, port: nat)
    ensures |t| - 1 <= |Removed(t, port)| <= |t|
  {
    if t != [] { RemovedLength(t[1..], port); }
  }

  /** Removing a port that was just added restores the table. */
  lemma {:induction false} RemoveUndoesAdd(t: PortTable, port: nat, service: Service)
    requires WellFormed(t) && |t| < MAX_PORTS && !Configured(t, port)
    ensures Removed(Added(t, port, service), port) == t
  {
    RemoveLast(t, port, service);
  }

  lemma {:induction false} RemoveLast(t: PortTable, port: nat, service: Service)
    requires !Configured(t, port)
    ensures Removed(t + [(port, service)], port) == t
  {
    if t == [] {
      assert [] + [(port, service)] == [(port, service)];
    } else {
      assert t[0].0 != port;
      assert (t + [(port, service)])[1..] == t[1..] + [(port, service)];
      assert forall i :: 0 <= i < |t[1..]| ==> t[1..][i].0 == t[i + 1].0;
      RemoveLast(t[1..], port, service);
    }
  }

  /** How many different ports the first n requests name. */
  function Named(requests: seq<(nat, string)>, n: nat): set<nat>
    requires n <= |requests|
  {
    set i | 0 <= i < n :: requests[i].0
  }

  /** The request is the first for its port, and fewer than eight different ports come before it. */
  predicate Granted(requests: seq<(nat, string)>, n: nat)
    requires n < |requests|
  {
    requests[n].0 !in Named(requests, n) && |Named(requests, n)| < MAX_PORTS
  }

  /** What a configuration leaves: the granted requests, in order. */
  function GrantedPorts(requests: seq<(nat, string)>, n: nat): PortTable
    requires n <= |requests|
  {
    if n == 0 then []
    else
      GrantedPorts(requests, n - 1) +
      if Granted(requests, n - 1) then [(requests[n - 1].0, ServiceOf(requests[n - 1].1))] else []
  }

  /** The table lists the named ports, as far as they fit. */
  ghost predicate Lists(t: PortTable, named: set<nat>) {
    && |t| == (if |named| < MAX_PORTS then |named| else MAX_PORTS)
    && (forall p :: Configured(t, p) ==> p in named)
    && (|named| <= MAX_PORTS ==> forall p :: p in named ==> Configured(t, p))
  }

  lemma ListsStep(t: PortTable, named: set<nat>, port: nat, service: Service)
    requires Lists(t, named)
    ensures Lists(if port !in named && |named| < MAX_PORTS then t + [(port, service)] else t, named + {port})
  {
    ConfiguredAppend(t, port, service);
    if port in named { assert named + {port} == named; } else { assert |named + {port}| == |named| + 1; }
  }

  lemma {:induction false} GrantedAre(requests: seq<(nat, string)>, n: nat)
    requires n <= |requests|
    ensures Lists(GrantedPorts(requests, n), Named(requests, n))
  {
    if n == 0 {
      assert Named(requests, 0) == {};
    } else {
      GrantedAre(requests, n - 1);
      var (port, name) := requests[n - 1];
      NamedStep(requests, n - 1);
      ListsStep(GrantedPorts(requests, n - 1), Named(requests, n - 1), port, ServiceOf(name));
      assert !Granted(requests, n - 1) ==> GrantedPorts(requests, n) == GrantedPorts(requests, n - 1);
    }
  }

  lemma NamedStep(requests: seq<(nat, string)>, n: nat)
    requires n < |requests|
    ensures Named(requests, n + 1) == Named(requests, n) + {requests[n].0}
  {
  }

  lemma ConfiguredAppend(t: PortTable, port: nat, service: Service)
    ensures forall p :: Configured(t + [(port, service)], p) <==> Configured(t, p) || p == port
  {
    var u := t + [(port, service)];
    forall p
      ensures Configured(u, p) <==> Configured(t, p) || p == port
    {
      if Configured(t, p) {
        var i :| 0 <= i < |t| && t[i].0 == p;
        assert u[i].0 == p;
      }
      assert u[|t|].0 == port;
    }
  }

  lemma AddedIsGranted(requests: seq<(nat, string)>, n: nat)
    requires n < |requests|
    ensures Added(GrantedPorts(requests, n), requests[n].0, ServiceOf(requests[n].1)) == GrantedPorts(requests, n + 1)
  {
    GrantedAre(requests, n);
  }

  lemma {:induction false} AddedAllFrom(requests: seq<(nat, string)>, n: nat)
    requires n <= |requests|
    ensures AddedAll(GrantedPorts(requests, n), requests[n..]) == GrantedPorts(requests, |requests|)
    decreases |requests| - n
  {
    if n < |requests| {
      AddedIsGranted(requests, n);
      assert requests[n..][1..] == requests[n + 1..];
      AddedAllFrom(requests, n + 1);
    }
  }

  /** Configuring from nothing grants the first request of each of the first eight different ports. */
  lemma ConfiguredPorts(requests: seq<(nat, string)>)
    ensures AddedAll([], requests) == GrantedPorts(requests, |requests|)
  {
    AddedAllFrom(requests, 0);
    assert requests[0..] == requests;
  }
}
