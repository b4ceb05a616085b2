/** The port-forward supervisor of one embedded interface: which listeners it wants, and how it
    gets from the ones it has to those. */
module PortForward {
  import opened Text
  import opened ForwardedPorts

  /** The fields of a peer that matter here: `v4` and `v6` are its first IPv4 and IPv6
      AllowedIPs address ("" for none). */
  datatype Peer = Peer(email: string, forwardedPorts: string, v4: string, v6: string)

  datatype Instance = Instance(peers: seq<Peer>, ipv6Enabled: bool)

  datatype Proto = Tcp | Udp

  datatype ListenKey = ListenKey(email: string, port: int, proto: Proto)

  /** An open listener, by identity. */
  type Listener = nat

  // ----- what an instance wants

  /** The tunnel-internal address of a peer: IPv4 first, IPv6 only where the instance has it. */
  function Target(inst: Instance, p: Peer): string {
    if p.v4 == "" && inst.ipv6Enabled then p.v6 else p.v4
  }

  /** The targets by email after the first `n` peers: a later peer with a target replaces an
      earlier one of the same email. */
  function Targets(inst: Instance, n: nat): map<string, string>
    requires n <= |inst.peers|
  {
    if n == 0 then map[] else
      var before := Targets(inst, n - 1);
      var p := inst.peers[n - 1];
      if p.email == "" || Target(inst, p) == "" then before else before[p.email := Target(inst, p)]
  }

  method DesiredPeerTargets(inst: Instance) returns (out: map<string, string>)
    ensures out == Targets(inst, |inst.peers|)
  {
    out := map[];
    for i := 0 to |inst.peers|
      invariant out == Targets(inst, i)
    {
      var p := inst.peers[i];
      if p.email == "" {
        continue;
      }
      var raw := p.v4;
      if raw == "" && inst.ipv6Enabled {
        raw := p.v6;
      }
      if raw == "" {
        continue;
      }
      out := out[p.email := raw];
    }
  }

  /** An email has a target exactly when some peer of that email does. */
  lemma {:induction false} HasTarget(inst: Instance, n: nat, email: string)
    requires n <= |inst.peers|
    ensures email in Targets(inst, n) <==>
      email != "" && exists i :: 0 <= i < n && inst.peers[i].email == email && Target(inst, inst.peers[i]) != ""
  {
    if n > 0 { HasTarget(inst, n - 1, email); }
  }

  /** The gate for a listener: an email, a port list, and a target for that email. */
  predicate Forwards(inst: Instance, p: Peer) {
    p.email != "" && p.forwardedPorts != "" && p.email in Targets(inst, |inst.peers|)
  }

  function Forwarding(inst: Instance, n: nat): seq<Peer>
    requires n <= |inst.peers|
  {
    if n == 0 then []
    else if Forwards(inst, inst.peers[n - 1]) then Forwarding(inst, n - 1) + [inst.peers[n - 1]]
    else Forwarding(inst, n - 1)
  }

  method ForwardingPeers(inst: Instance) returns (out: seq<Peer>)
    ensures out == Forwarding(inst, |inst.peers|)
  {
    hide Targets;
    var targets := DesiredPeerTargets(inst);
    out := [];
    for i := 0 to |inst.peers|
      invariant out == Forwarding(inst, i)
    {
      var p := inst.peers[i];
      if p.email == "" || p.forwardedPorts == "" {
        continue;
      }
      if p.email !in targets {
        continue;
      }
      out := out + [p];
    }
  }

  lemma {:induction false} InForwarding(inst: Instance, n: nat, p: Peer)
    requires n <= |inst.peers|
    ensures p in Forwarding(inst, n) <==> Forwards(inst, p) && exists i :: 0 <= i < n && inst.peers[i] == p
  {
    hide Forwards;
    if n > 0 { InForwarding(inst, n - 1, p); }
  }

  function Ports(p: Peer): seq<int> {
    Expansion(p.forwardedPorts, MAX_FORWARDED_PORTS)
  }

  /** A key is wanted when a forwarding peer of that email expands to that port. */
  ghost predicate Wanted(inst: Instance, k: ListenKey) {
    exists i :: 0 <= i < |inst.peers| && Gives(inst, inst.peers[i], k)
  }

  predicate Gives(inst: Instance, p: Peer, k: ListenKey) {
    Forwards(inst, p) && p.email == k.email && k.port in Ports(p)
  }

  method DesiredPortForwardKeys(inst: Instance) returns (out: set<ListenKey>)
    ensures forall k :: k in out <==> Wanted(inst, k)
  {
    hide Expansion, Forwards;
    var peers := ForwardingPeers(inst);
    out := {};
    for i := 0 to |peers|
      invariant forall k :: k in out <==> exists j :: 0 <= j < i && peers[j].email == k.email && k.port in Ports(peers[j])
    {
      var ports := ExpandForwardedPorts(peers[i].forwardedPorts);
      ghost var before := out;
      for j := 0 to |ports|
        invariant forall k :: k in out <==> k in before || (k.email == peers[i].email && k.port in ports[..j])
      {
        out := out + {ListenKey(peers[i].email, ports[j], Tcp)};
        out := out + {ListenKey(peers[i].email, ports[j], Udp)};
        assert ports[..j + 1] == ports[..j] + [ports[j]];
        assert forall k: ListenKey :: k.proto == Tcp || k.proto == Udp;
      }
      assert ports[..|ports|] == ports;
    }
    forall k ensures k in out <==> Wanted(inst, k) {
      WantedForwarding(inst, peers, k);
    }
  }

  lemma WantedForwarding(inst: Instance, peers: seq<Peer>, k: ListenKey)
    requires peers == Forwarding(inst, |inst.peers|)
    ensures Wanted(inst, k) <==> exists j :: 0 <= j < |peers| && peers[j].email == k.email && k.port in Ports(peers[j])
  {
    hide Expansion, Forwards;
    if j :| 0 <= j < |peers| && peers[j].email == k.email && k.port in Ports(peers[j]) {
      InForwarding(inst, |inst.peers|, peers[j]);
    }
    if i :| 0 <= i < |inst.peers| && Gives(inst, inst.peers[i], k) {
      InForwarding(inst, |inst.peers|, inst.peers[i]);
    }
  }

  /** The peer a port belongs to. It names one exactly when some wanted listener has the port,
      and both listeners of that peer and port are wanted. */
  method ForwardedPortOwner(inst: Instance, port: int) returns (owner: string, found: bool)
    ensures found <==> exists k :: Wanted(inst, k) && k.port == port
    ensures found ==> Wanted(inst, ListenKey(owner, port, Tcp)) && Wanted(inst, ListenKey(owner, port, Udp))
  {
    hide Expansion, Forwards, Wanted;
    var peers := ForwardingPeers(inst);
    for i := 0 to |peers|
      invariant forall j :: 0 <= j < i ==> port !in Ports(peers[j])
    {
      var ports := ExpandForwardedPorts(peers[i].forwardedPorts);
      for j := 0 to |ports|
        invariant port !in ports[..j]
      {
        if ports[j] == port {
          assert port in Ports(peers[i]);
          WantedForwarding(inst, peers, ListenKey(peers[i].email, port, Tcp));
          WantedForwarding(inst, peers, ListenKey(peers[i].email, port, Udp));
          return peers[i].email, true;
        }
      }
      assert ports[..|ports|] == ports;
    }
    forall k | Wanted(inst, k) ensures k.port != port {
      WantedForwarding(inst, peers, k);
    }
    return "", false;
  }

  /** What the save-time checks ask (ForwardedPortsInclude) and what gets opened agree for every
      client within the cap. */
  lemma WantedIffIncluded(inst: Instance, i: nat, port: int, proto: Proto)
    requires i < |inst.peers| && Forwards(inst, inst.peers[i])
    requires |Union(inst.peers[i].forwardedPorts)| <= 100
    ensures Gives(inst, inst.peers[i], ListenKey(inst.peers[i].email, port, proto)) <==>
      Covers(inst.peers[i].forwardedPorts, port)
  {
    ExpansionExact(inst.peers[i].forwardedPorts, MAX_FORWARDED_PORTS);
  }

  // ----- the supervisor

  /** The host's sockets, as this supervisor uses them. */
  class Sockets {
    var next: Listener
    var open: set<Listener>

    constructor ()
      ensures open == {}
    {
      next, open := 0, {};
    }

    /** A bind that may fail. */
    method Listen(binds: bool) returns (ln: Option<Listener>)
      modifies this
      ensures !binds ==> ln == None && next == old(next) && open == old(open)
      ensures binds ==> ln == Some(old(next)) && next == old(next) + 1 && open == old(open) + {old(next)}
    {
      if !binds {
        return None;
      }
      ln, next, open := Some(next), next + 1, open + {next};
    }

    method Close(ln: Listener)
      modifies this`open
      ensures open == old(open) - {ln}
    {
      open := open - {ln};
    }
  }

  /** The listeners are open, one per key, and no other socket is. */
  ghost predicate Sound(listeners: map<ListenKey, Listener>, next: Listener, open: set<Listener>) {
    && (forall k :: k in listeners ==> listeners[k] < next)
    && (forall k, j :: k in listeners && j in listeners && listeners[k] == listeners[j] ==> k == j)
    && open == listeners.Values
  }

  lemma ClosedOne(listeners: map<ListenKey, Listener>, next: Listener, open: set<Listener>, k: ListenKey)
    requires Sound(listeners, next, open) && k in listeners
    ensures Sound(listeners - {k}, next, open - {listeners[k]})
  {
    var m := listeners - {k};
    forall v ensures v in m.Values <==> v in listeners.Values && v != listeners[k] {
      if v in listeners.Values && v != listeners[k] {
        var j :| j in listeners && listeners[j] == v;
        assert m[j] == v;
      }
    }
  }

  lemma OpenedOne(listeners: map<ListenKey, Listener>, next: Listener, open: set<Listener>, k: ListenKey)
    requires Sound(listeners, next, open) && k !in listeners
    ensures Sound(listeners[k := next], next + 1, open + {next})
  {
    var m := listeners[k := next];
    forall v ensures v in m.Values <==> v in listeners.Values || v == next {
      if v in listeners.Values {
        var j :| j in listeners && listeners[j] == v;
        assert m[j] == v;
      }
      assert m[k] == next;
    }
  }

  class PortForwardSet {
    var peerTargets: map<string, string>
    var listeners: map<ListenKey, Listener>
    const sockets: Sockets

    ghost predicate Valid()
      reads this, sockets
    {
      Sound(listeners, sockets.next, sockets.open)
    }

    constructor ()
      ensures Valid() && listeners == map[] && peerTargets == map[] && fresh(sockets)
    {
      peerTargets, listeners := map[], map[];
      sockets := new Sockets();
    }

    /** Closes what is no longer wanted. */
    method CloseUnwanted(want: set<ListenKey>)
      requires Valid()
      modifies this`listeners, sockets`open
      ensures Valid()
      ensures listeners == map k | k in old(listeners) && k in want :: old(listeners)[k]
    {
      hide Sound;
      ghost var all := listeners;
      var extra := set k | k in listeners && k !in want;
      while extra != {}
        invariant Valid()
        invariant extra == set k | k in listeners && k !in want
        invariant forall k :: k in listeners ==> k in all && listeners[k] == all[k]
        invariant forall k :: k in all && k in want ==> k in listeners
        decreases |extra|
      {
        var k :| k in extra;
        ClosedOne(listeners, sockets.next, sockets.open, k);
        sockets.Close(listeners[k]);
        listeners := listeners - {k};
        extra := extra - {k};
      }
      assert forall k :: k in listeners ==> k in extra || k in want;
    }

    /** Opens what is missing; binding a key of `fails` does not succeed this time. */
    method OpenMissing(want: set<ListenKey>, fails: set<ListenKey>)
      requires Valid() && listeners.Keys <= want
      modifies this`listeners, sockets
      ensures Valid() && listeners.Keys == old(listeners.Keys) + (want - fails)
      ensures forall k :: k in old(listeners) ==> listeners[k] == old(listeners[k])
      ensures forall k :: k in listeners && k !in old(listeners) ==> listeners[k] >= old(sockets.next)
      ensures old(listeners.Keys) == want ==> sockets.next == old(sockets.next)
    {
      hide Sound;
      ghost var kept := listeners;
      var missing := set k | k in want && k !in listeners;
      ghost var all := missing;
      while missing != {}
        invariant Valid() && missing <= all && forall k :: k in missing ==> k !in listeners
        invariant listeners.Keys == kept.Keys + (all - missing - fails)
        invariant forall k :: k in kept ==> listeners[k] == kept[k]
        invariant forall k :: k in listeners && k !in kept ==> listeners[k] >= old(sockets.next)
        invariant sockets.next >= old(sockets.next) && (all == {} ==> sockets.next == old(sockets.next))
        decreases |missing|
      {
        var k :| k in missing;
        OpenedOne(listeners, sockets.next, sockets.open, k);
        var ln := sockets.Listen(k !in fails);
        if ln != None {
          listeners := listeners[k := ln.value];
        }
        missing := missing - {k};
      }
    }

    /** Brings the listeners in line with `inst`: unwanted ones closed, missing ones opened where
        the bind succeeds, all others left alone. */
    method Reconcile(inst: Instance, fails: set<ListenKey>)
      requires Valid()
      modifies this, sockets
      ensures Valid() && peerTargets == Targets(inst, |inst.peers|)
      ensures forall k :: k in listeners <==> Wanted(inst, k) && (k in old(listeners) || k !in fails)
      ensures forall k :: k in listeners && k in old(listeners) ==> listeners[k] == old(listeners[k])
      ensures forall k :: k in listeners && k !in old(listeners) ==> listeners[k] >= old(sockets.next)
      ensures (forall k :: Wanted(inst, k) ==> k in old(listeners)) ==> sockets.next == old(sockets.next)
    {
      hide Sound, Targets, Wanted;
      peerTargets := DesiredPeerTargets(inst);
      var want := DesiredPortForwardKeys(inst);
      CloseUnwanted(want);
      OpenMissing(want, fails);
    }

    /** Tears every listener down. */
    method Close()
      requires Valid()
      modifies this`listeners, sockets`open
      ensures Valid() && listeners == map[] && sockets.open == {}
    {
      hide Sound;
      CloseUnwanted({});
      Emptied(listeners, sockets.next, sockets.open);
    }
  }

  lemma Emptied(listeners: map<ListenKey, Listener>, next: Listener, open: set<Listener>)
    requires Sound(listeners, next, open) && listeners == map[]
    ensures open == {}
  {
  }

  /** Where the listeners are exactly the wanted ones, a round opens and closes nothing, whatever
      the binds would have done. */
  method SettledRound(s: PortForwardSet, inst: Instance, fails: set<ListenKey>)
    requires s.Valid() && forall k :: k in s.listeners <==> Wanted(inst, k)
    modifies s, s.sockets
    ensures s.Valid() && s.listeners == old(s.listeners)
    ensures s.sockets.next == old(s.sockets.next) && s.sockets.open == old(s.sockets.open)
  {
    hide Targets, Wanted;
    s.Reconcile(inst, fails);
  }

  /** Two rounds for one instance, the second with every bind succeeding: the listeners are then
      exactly the wanted ones, and those of before the first round that are still wanted are
      untouched. */
  method RetryConverges(s: PortForwardSet, inst: Instance, fails: set<ListenKey>)
    requires s.Valid()
    modifies s, s.sockets
    ensures s.Valid() && forall k :: k in s.listeners <==> Wanted(inst, k)
    ensures forall k :: k in old(s.listeners) && k in s.listeners ==> s.listeners[k] == old(s.listeners[k])
  {
    hide Sound, Targets, Wanted;
    s.Reconcile(inst, fails);
    s.Reconcile(inst, {});
  }
}
