/**
 A network of gossip nodes exchanging Ping and Pong (src/gossip/proto.rs).  Delivery may lose and
 reorder datagrams, hand them to any node and under any source address, but not duplicate them;
 friend lists are any a node may draw.  Timers and `AddHost` are outside: without them every run
 comes to rest.
 */
module GossipNetwork {
  import opened GossipPeers
  import opened GossipNode

  // ---------------------------------------------------------------- one node

  predicate HasAddr(peers: Peers, id: Id) {
    id in peers && peers[id].primaryAddr.Some?
  }

  /** The ids a node has no address for. */
  function Unreached(peers: Peers, ids: set<Id>): set<Id> {
    set id | id in ids && !HasAddr(peers, id)
  }

  function Pings(outs: seq<Out>): nat {
    if outs == [] then 0 else Pings(outs[..|outs| - 1]) + (if outs[|outs| - 1].OutPing? then 1 else 0)
  }

  function Pongs(outs: seq<Out>): nat {
    if outs == [] then 0 else Pongs(outs[..|outs| - 1]) + (if outs[|outs| - 1].OutPong? then 1 else 0)
  }

  lemma CountLast(outs: seq<Out>, o: Out)
    ensures Pings(outs + [o]) == Pings(outs) + (if o.OutPing? then 1 else 0)
    ensures Pongs(outs + [o]) == Pongs(outs) + (if o.OutPong? then 1 else 0)
  {
    assert (outs + [o])[..|outs|] == outs;
  }

  lemma UnreachedFalls(peers: Peers, id: Id, p: Peer, ids: set<Id>)
    requires id in ids && p.primaryAddr.Some? && !HasAddr(peers, id)
    ensures |Unreached(peers[id := p], ids)| == |Unreached(peers, ids)| - 1
  {
    assert Unreached(peers[id := p], ids) == Unreached(peers, ids) - {id};
  }

  lemma UnreachedKept(peers: Peers, id: Id, p: Peer, ids: set<Id>)
    requires HasAddr(peers, id) ==> p.primaryAddr.Some?
    ensures |Unreached(peers[id := p], ids)| <= |Unreached(peers, ids)|
  {
    Subset(Unreached(peers[id := p], ids), Unreached(peers, ids));
  }

  lemma {:induction false} Subset(a: set<Id>, b: set<Id>)
    requires a <= b
    ensures |a| <= |b|
    decreases a
  {
    if a != {} {
      var x :| x in a;
      Subset(a - {x}, b - {x});
    }
  }

  /** All ids a table mentions. */
  predicate IdsWithin(peers: Peers, ids: set<Id>) {
    forall id | id in peers :: id in ids && peers[id].id in ids
  }

  predicate FriendsWithin(friends: seq<FriendInfo>, ids: set<Id>) {
    forall i | 0 <= i < |friends| :: friends[i].id in ids
  }

  /** What the friends seen so far leave and have made the node send, against the peers it had before. */
  ghost predicate Paid(peers: Peers, peers': Peers, outs: seq<Out>, ids: set<Id>) {
    && IdsWithin(peers', ids)
    && (forall i | 0 <= i < |outs| :: outs[i].OutPing? && IdsWithin(outs[i].known, ids))
    && |Unreached(peers', ids)| + Pings(outs) <= |Unreached(peers, ids)|
    && Pongs(outs) == 0
  }

  lemma OnePays(self: Id, peers: Peers, now: Peers, outs: seq<Out>, f: FriendInfo, source: Addr,
                t: int, t': int, ids: set<Id>)
    requires f.id in ids && Paid(peers, now, outs, ids)
    ensures var (now', outs') := BefriendOne(self, now, outs, f, source, t, t');
      Paid(peers, now', outs', ids)
  {
    if f.id != self {
      var known := Entry(now, f.id, t);
      FriendIsNoOlder(known, f, source, t');
      var (p, probe) := FriendUpdate(known, f, source, t');
      hide FriendUpdate;
      if probe.Some? {
        UnreachedFalls(now, f.id, p, ids);
        CountLast(outs, OutPing(probe.value, now[f.id := p]));
      } else {
        UnreachedKept(now, f.id, p, ids);
      }
      hide Unreached, Pings, Pongs;
    }
  }

  /** Every discovery ping uses up one unreached id. */
  lemma {:induction false} BefriendPays(self: Id, peers: Peers, friends: seq<FriendInfo>, source: Addr,
                                        clock: nat -> int, ids: set<Id>)
    requires FriendsWithin(friends, ids) && IdsWithin(peers, ids)
    ensures var (peers', outs) := Befriend(self, peers, friends, source, clock);
      Paid(peers, peers', outs, ids)
  {
    hide *;
    if friends == [] {
      NothingPaid(self, peers, source, clock, ids);
    } else {
      var n := |friends| - 1;
      FirstWithin(friends, ids);
      BefriendPays(self, peers, friends[..n], source, clock, ids);
      BefriendNext(self, peers, friends, source, clock, n);
      assert friends[..n + 1] == friends;
      var (peers0, outs) := Befriend(self, peers, friends[..n], source, clock);
      OnePays(self, peers, peers0, outs, friends[n], source, clock(2 * n + 1), clock(2 * n + 2), ids);
    }
  }

  lemma FirstWithin(friends: seq<FriendInfo>, ids: set<Id>)
    requires FriendsWithin(friends, ids) && friends != []
    ensures friends[|friends| - 1].id in ids && FriendsWithin(friends[..|friends| - 1], ids)
  {}

  lemma NothingPaid(self: Id, peers: Peers, source: Addr, clock: nat -> int, ids: set<Id>)
    requires IdsWithin(peers, ids)
    ensures Befriend(self, peers, [], source, clock) == (peers, []) && Paid(peers, peers, [], ids)
  {}

  /** One packet: what it makes a node send is paid for, but for the one Pong a Ping is owed. */
  lemma ConsumePays(c: Config, peers: Peers, packet: Packet, addr: Addr, tm: int, clock: nat -> int, ids: set<Id>)
    requires FriendsWithin(packet.friends, ids) && packet.me.id in ids && IdsWithin(peers, ids)
    ensures var (peers', outs) := Consumed(c, peers, packet, addr, tm, clock);
      && IdsWithin(peers', ids)
      && (forall i | 0 <= i < |outs| :: IdsWithin(outs[i].known, ids))
      && |Unreached(peers', ids)| + Pings(outs) <= |Unreached(peers, ids)|
      && Pongs(outs) <= (if packet.Ping? then 1 else 0)
  {
    if !Refused(c, packet) {
      var id := packet.me.id;
      var sender := SenderUpdate(Entry(peers, id, clock(0)), packet, addr, tm);
      assert sender.primaryAddr.Some? && sender.id in ids;
      hide SenderUpdate, Befriend;
      var peers0 := peers[id := sender];
      UnreachedKept(peers, id, sender, ids);
      BefriendPays(c.machineId, peers0, packet.friends, addr, clock, ids);
      var (peers1, outs) := Befriend(c.machineId, peers0, packet.friends, addr, clock);
      CountLast(outs, OutPong(addr, tm, tm, peers1));
      if packet.Ping? {
        CountLast(outs, OutPong(addr, packet.now, tm, peers1));
      }
    }
  }

  // ---------------------------------------------------------------- the network

  datatype Node = Node(c: Config, peers: Peers)

  datatype Net = Net(nodes: seq<Node>, flight: multiset<Packet>)

  /** All ids that occur lie in a finite set. */
  ghost predicate Closed(net: Net, ids: set<Id>) {
    && (forall i | 0 <= i < |net.nodes| :: net.nodes[i].c.machineId in ids && IdsWithin(net.nodes[i].peers, ids))
    && (forall p | p in net.flight :: p.me.id in ids && FriendsWithin(p.friends, ids))
  }

  /** A packet that may be what `o` put on the wire. */
  ghost predicate Carries(c: Config, o: Out, p: Packet) {
    && p.me.id == c.machineId
    && p.Ping? == o.OutPing?
    && exists now :: MaySend(o.known, o.to, p.friends, c, now)
  }

  ghost predicate CarriesAll(c: Config, outs: seq<Out>, sent: seq<Packet>) {
    |sent| == |outs| && forall i | 0 <= i < |outs| :: Carries(c, outs[i], sent[i])
  }

  /** A datagram disappears. */
  ghost predicate Lose(net: Net, net': Net) {
    exists p | p in net.flight :: net' == Net(net.nodes, net.flight - multiset{p})
  }

  ghost predicate DeliverTo(net: Net, net': Net, p: Packet, i: nat, addr: Addr, tm: int, clock: nat -> int,
                            sent: seq<Packet>) {
    && p in net.flight && i < |net.nodes|
    && var node := net.nodes[i];
       var (peers, outs) := Consumed(node.c, node.peers, p, addr, tm, clock);
       && CarriesAll(node.c, outs, sent)
       && net' == Net(net.nodes[i := Node(node.c, peers)], net.flight - multiset{p} + multiset(sent))
  }

  ghost predicate Deliver(net: Net, net': Net) {
    exists p, i: nat, addr, tm, clock: nat -> int, sent :: DeliverTo(net, net', p, i, addr, tm, clock, sent)
  }

  ghost predicate Next(net: Net, net': Net) {
    Lose(net, net') || Deliver(net, net')
  }

  // ---------------------------------------------------------------- the measure

  function UnreachedPairs(nodes: seq<Node>, ids: set<Id>): nat {
    if nodes == [] then 0
    else UnreachedPairs(nodes[..|nodes| - 1], ids) + |Unreached(nodes[|nodes| - 1].peers, ids)|
  }

  function Cost(p: Packet): nat {
    if p.Ping? then 2 else 1
  }

  /** Two for every Ping and one for every Pong under way. */
  ghost function InFlight(flight: multiset<Packet>): nat
    decreases |flight|
  {
    if flight == multiset{} then 0 else
      var p :| p in flight;
      Cost(p) + InFlight(flight - multiset{p})
  }

  ghost function Measure(net: Net, ids: set<Id>): nat {
    3 * UnreachedPairs(net.nodes, ids) + InFlight(net.flight)
  }

  lemma {:induction false} InFlightRemove(flight: multiset<Packet>, p: Packet)
    requires p in flight
    ensures InFlight(flight) == Cost(p) + InFlight(flight - multiset{p})
    decreases |flight|
  {
    var q :| q in flight && InFlight(flight) == Cost(q) + InFlight(flight - multiset{q});
    if q != p {
      var lessQ, lessP := flight - multiset{q}, flight - multiset{p};
      assert p in lessQ && q in lessP && lessQ - multiset{p} == lessP - multiset{q};
      InFlightRemove(lessQ, p);
      InFlightRemove(lessP, q);
    }
  }

  lemma {:induction false} InFlightAdd(flight: multiset<Packet>, outs: seq<Out>, sent: seq<Packet>)
    requires |sent| == |outs| && forall i | 0 <= i < |outs| :: sent[i].Ping? == outs[i].OutPing?
    ensures InFlight(flight + multiset(sent)) == InFlight(flight) + 2 * Pings(outs) + Pongs(outs)
  {
    hide InFlight;
    if outs == [] {
      assert sent == [] && flight + multiset(sent) == flight;
    } else {
      var n := |outs| - 1;
      InFlightAdd(flight, outs[..n], sent[..n]);
      OneMore(flight, sent);
      InFlightRemove(flight + multiset(sent), sent[n]);
      assert outs[..n] + [outs[n]] == outs;
      CountLast(outs[..n], outs[n]);
    }
  }

  lemma OneMore(flight: multiset<Packet>, sent: seq<Packet>)
    requires sent != []
    ensures var n := |sent| - 1;
      sent[n] in flight + multiset(sent) && flight + multiset(sent) - multiset{sent[n]} == flight + multiset(sent[..n])
  {
    assert sent == sent[..|sent| - 1] + [sent[|sent| - 1]];
  }

  lemma {:induction false} PairsUpdate(nodes: seq<Node>, i: nat, node: Node, ids: set<Id>)
    requires i < |nodes|
    ensures UnreachedPairs(nodes[i := node], ids) + |Unreached(nodes[i].peers, ids)|
         == UnreachedPairs(nodes, ids) + |Unreached(node.peers, ids)|
  {
    var n := |nodes| - 1;
    if i == n {
      assert nodes[i := node][..n] == nodes[..n];
    } else {
      PairsUpdate(nodes[..n], i, node, ids);
      assert nodes[i := node][..n] == nodes[..n][i := node];
    }
  }

  lemma CarriedWithin(c: Config, o: Out, p: Packet, ids: set<Id>)
    requires Carries(c, o, p) && c.machineId in ids && IdsWithin(o.known, ids)
    ensures p.me.id in ids && FriendsWithin(p.friends, ids)
  {}

  lemma LosePays(net: Net, net': Net, ids: set<Id>)
    requires Closed(net, ids) && Lose(net, net')
    ensures Closed(net', ids) && Measure(net', ids) < Measure(net, ids)
  {
    var p :| p in net.flight && net' == Net(net.nodes, net.flight - multiset{p});
    InFlightRemove(net.flight, p);
  }

  lemma DeliverStaysClosed(net: Net, net': Net, p: Packet, i: nat, addr: Addr, tm: int, clock: nat -> int,
                           sent: seq<Packet>, ids: set<Id>)
    requires Closed(net, ids) && DeliverTo(net, net', p, i, addr, tm, clock, sent)
    ensures Closed(net', ids)
  {
    var node := net.nodes[i];
    ConsumePays(node.c, node.peers, p, addr, tm, clock, ids);
    FlightWithin(node.c, net.flight, p, Consumed(node.c, node.peers, p, addr, tm, clock).1, sent, ids);
    hide Consumed, IdsWithin, FriendsWithin, Unreached, CarriesAll, Pings, Pongs;
  }

  lemma FlightWithin(c: Config, flight: multiset<Packet>, p: Packet, outs: seq<Out>, sent: seq<Packet>,
                     ids: set<Id>)
    requires forall q | q in flight :: q.me.id in ids && FriendsWithin(q.friends, ids)
    requires CarriesAll(c, outs, sent) && c.machineId in ids
    requires forall k | 0 <= k < |outs| :: IdsWithin(outs[k].known, ids)
    ensures forall q | q in flight - multiset{p} + multiset(sent) :: q.me.id in ids && FriendsWithin(q.friends, ids)
  {
    hide IdsWithin, FriendsWithin, Carries;
    forall q | q in flight - multiset{p} + multiset(sent) ensures q.me.id in ids && FriendsWithin(q.friends, ids) {
      if q !in flight {
        assert q in multiset(sent);
        var k :| 0 <= k < |sent| && sent[k] == q;
        CarriedWithin(c, outs[k], q, ids);
      }
    }
  }

  lemma DeliverPays(net: Net, net': Net, p: Packet, i: nat, addr: Addr, tm: int, clock: nat -> int,
                    sent: seq<Packet>, ids: set<Id>)
    requires Closed(net, ids) && DeliverTo(net, net', p, i, addr, tm, clock, sent)
    ensures Measure(net', ids) < Measure(net, ids)
  {
    var node := net.nodes[i];
    var (peers, outs) := Consumed(node.c, node.peers, p, addr, tm, clock);
    ConsumePays(node.c, node.peers, p, addr, tm, clock, ids);
    CarriesKind(node.c, outs, sent);
    hide Consumed, IdsWithin, FriendsWithin, Unreached, Closed, CarriesAll, InFlight, UnreachedPairs, Pings, Pongs;
    PairsUpdate(net.nodes, i, Node(node.c, peers), ids);
    InFlightRemove(net.flight, p);
    InFlightAdd(net.flight - multiset{p}, outs, sent);
  }

  lemma CarriesKind(c: Config, outs: seq<Out>, sent: seq<Packet>)
    requires CarriesAll(c, outs, sent)
    ensures |sent| == |outs| && forall k | 0 <= k < |outs| :: sent[k].Ping? == outs[k].OutPing?
  {
    forall k | 0 <= k < |outs| ensures sent[k].Ping? == outs[k].OutPing? {
      assert Carries(c, outs[k], sent[k]);
    }
  }

  /** Every step, a loss or a delivery, strictly lowers the measure. */
  lemma NextPays(net: Net, net': Net, ids: set<Id>)
    requires Closed(net, ids) && Next(net, net')
    ensures Closed(net', ids) && Measure(net', ids) < Measure(net, ids)
  {
    hide Closed, Measure, DeliverTo;
    if Lose(net, net') {
      LosePays(net, net', ids);
    } else {
      var p, i: nat, addr, tm, clock: nat -> int, sent :| DeliverTo(net, net', p, i, addr, tm, clock, sent);
      DeliverPays(net, net', p, i, addr, tm, clock, sent, ids);
      DeliverStaysClosed(net, net', p, i, addr, tm, clock, sent, ids);
    }
  }

  /** The ids that occur anywhere in a network. */
  function IdsOf(net: Net): set<Id> {
    (set i | 0 <= i < |net.nodes| :: net.nodes[i].c.machineId)
    + (set i, id | 0 <= i < |net.nodes| && id in net.nodes[i].peers :: id)
    + (set i, id | 0 <= i < |net.nodes| && id in net.nodes[i].peers :: net.nodes[i].peers[id].id)
    + (set p | p in net.flight :: p.me.id)
    + (set p, k | p in net.flight && 0 <= k < |p.friends| :: p.friends[k].id)
  }

  lemma IdsClose(net: Net)
    ensures Closed(net, IdsOf(net))
  {}

  ghost predicate IsRun(run: seq<Net>) {
    forall k | 0 <= k < |run| - 1 :: Next(run[k], run[k + 1])
  }

  /** So every run is finite: it has no more steps than the measure it starts with. */
  lemma {:induction false} RunsAreBounded(run: seq<Net>, ids: set<Id>)
    requires |run| > 0 && IsRun(run) && Closed(run[0], ids)
    ensures |run| - 1 <= Measure(run[0], ids)
    decreases |run|
  {
    if |run| > 1 {
      assert Next(run[0], run[1]);
      NextPays(run[0], run[1], ids);
      var rest := run[1..];
      forall k | 0 <= k < |rest| - 1 ensures Next(rest[k], rest[k + 1]) {
        assert rest[k] == run[k + 1] && rest[k + 1] == run[k + 2];
      }
      RunsAreBounded(rest, ids);
    }
  }

  lemma RunsAreFinite(run: seq<Net>)
    requires |run| > 0 && IsRun(run)
    ensures |run| - 1 <= Measure(run[0], IdsOf(run[0]))
  {
    IdsClose(run[0]);
    RunsAreBounded(run, IdsOf(run[0]));
  }

  lemma NextLosesNothing(net: Net, net': Net, i: nat)
    requires Next(net, net') && i < |net.nodes|
    ensures |net'.nodes| == |net.nodes| && NothingLost(net.nodes[i].peers, net'.nodes[i].peers)
  {
    if !Lose(net, net') {
      var p, j: nat, addr, tm, clock: nat -> int, sent :| DeliverTo(net, net', p, j, addr, tm, clock, sent);
      ConsumedLosesNothing(net.nodes[j].c, net.nodes[j].peers, p, addr, tm, clock);
      hide Consumed, NothingLost;
      if i != j {
        NothingLostAtRest(net.nodes[i].peers);
      }
    } else {
      NothingLostAtRest(net.nodes[i].peers);
    }
  }

  lemma NothingLostAtRest(peers: Peers)
    ensures NothingLost(peers, peers)
  {}

  lemma NothingLostTwice(a: Peers, b: Peers, c: Peers)
    requires NothingLost(a, b) && NothingLost(b, c)
    ensures NothingLost(a, c)
  {}

  /** Along every run what a node knows of the others only gets newer. */
  lemma {:induction false} RunsNeverForget(run: seq<Net>, n: nat, i: nat)
    requires n < |run| && IsRun(run) && i < |run[0].nodes|
    ensures |run[n].nodes| == |run[0].nodes| && NothingLost(run[0].nodes[i].peers, run[n].nodes[i].peers)
  {
    hide Next, NothingLost;
    if n == 0 {
      NothingLostAtRest(run[0].nodes[i].peers);
    } else {
      RunsNeverForget(run, n - 1, i);
      assert Next(run[n - 1], run[n - 1 + 1]);
      NextLosesNothing(run[n - 1], run[n], i);
      NothingLostTwice(run[0].nodes[i].peers, run[n - 1].nodes[i].peers, run[n].nodes[i].peers);
    }
  }

  /** At rest nothing is under way: a network with a packet in flight can always take a step. */
  lemma RestIsQuiet(net: Net)
    ensures (exists net' :: Next(net, net')) <==> net.flight != multiset{}
  {
    if net.flight != multiset{} {
      var p :| p in net.flight;
      assert Lose(net, Net(net.nodes, net.flight - multiset{p}));
      assert Next(net, Net(net.nodes, net.flight - multiset{p}));
    }
    if net' :| Next(net, net') {
      if !Lose(net, net') {
        var p, i: nat, addr, tm, clock: nat -> int, sent :| DeliverTo(net, net', p, i, addr, tm, clock, sent);
      }
    }
  }
}
