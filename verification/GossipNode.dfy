/** One gossip node (src/gossip/proto.rs). */
module GossipNode {
  import opened Wrappers
  import opened GossipPeers

  /** A datagram as it is sent: the friend list is drawn from the peers known at that moment. */
  datatype Out =
    | OutPing(to: Addr, known: Peers)
    | OutPong(to: Addr, pingTime: int, peerTime: int, known: Peers)

  // ---------------------------------------------------------------- receiving, as functions

  function Entry(peers: Peers, id: Id, now: int): Peer {
    if id in peers then peers[id] else NewPeer(id, now)
  }

  function SenderUpdate(p: Peer, packet: Packet, addr: Addr, tm: int): Peer {
    var me := packet.me;
    var p1 := ApplyReport(ApplyAddresses(p, me.addresses, true), Some((tm, me.report)), true);
    var p2 := match packet
      case Ping(_, _, _, _) =>
        var named := ApplyNodeName(ApplyHostname(p1, Some(me.host), true), Some(me.name), true);
        named.(pingsReceived := named.pingsReceived + 1)
      case Pong(_, _, pingTime, peerTime, _) =>
        var counted := p1.(pongsReceived := p1.pongsReceived + 1);
        var timed := if pingTime <= tm && pingTime <= peerTime
                     then ApplyRoundtrip(counted, (tm, tm - pingTime), addr, true) else counted;
        ApplyNodeName(ApplyHostname(timed, Some(me.host), true), Some(me.name), true);
    p2.(primaryAddr := Some(addr))
  }

  function Hearsay(p: Peer, f: FriendInfo, source: Addr): Peer {
    var p1 := ApplyReport(ApplyAddresses(p, f.addresses, false), f.report, false);
    var p2 := ApplyNodeName(ApplyHostname(p1, f.host, false), f.name, false);
    if f.roundtrip.Some? then ApplyRoundtrip(p2, f.roundtrip.value, source, false) else p2
  }

  /** One friend: its record, and the address to probe when this is the first one known. */
  function FriendUpdate(p: Peer, f: FriendInfo, source: Addr, now: int): (Peer, Option<Addr>) {
    var p1 := Hearsay(p, f, source);
    if p1.primaryAddr.Some? || f.myPrimaryAddr.None? then (p1, None)
    else
      var addr := f.myPrimaryAddr.value;
      (p1.(primaryAddr := Some(addr), lastProbe := Some((now, addr)), probesSent := p1.probesSent + 1), Some(addr))
  }

  /** One friend more, who may be the node itself, after what was sent before. */
  function BefriendOne(self: Id, peers: Peers, outs: seq<Out>, f: FriendInfo, source: Addr, now: int, later: int)
    : (Peers, seq<Out>)
  {
    if f.id == self then (peers, outs)
    else
      var (p, probe) := FriendUpdate(Entry(peers, f.id, now), f, source, later);
      var peers' := peers[f.id := p];
      (peers', if probe.Some? then outs + [OutPing(probe.value, peers')] else outs)
  }

  /** The friend list in order: peers and the discovery pings sent on the way.  Every friend reads the clock anew. */
  function Befriend(self: Id, peers: Peers, friends: seq<FriendInfo>, source: Addr, clock: nat -> int)
    : (Peers, seq<Out>)
  {
    if friends == [] then (peers, []) else
      var n := |friends| - 1;
      var (peers0, outs) := Befriend(self, peers, friends[..n], source, clock);
      BefriendOne(self, peers0, outs, friends[n], source, clock(2 * n + 1), clock(2 * n + 2))
  }

  lemma BefriendNext(self: Id, peers: Peers, friends: seq<FriendInfo>, source: Addr, clock: nat -> int, i: nat)
    requires i < |friends|
    ensures var (peers0, outs) := Befriend(self, peers, friends[..i], source, clock);
      Befriend(self, peers, friends[..i + 1], source, clock)
        == BefriendOne(self, peers0, outs, friends[i], source, clock(2 * i + 1), clock(2 * i + 2))
  {
    hide BefriendOne;
    assert friends[..i + 1][..i] == friends[..i];
  }

  predicate Refused(c: Config, packet: Packet) {
    packet.cluster != c.cluster || packet.me.id == c.machineId
  }

  /** The peers after a packet that came at `tm` and everything sent in answer; `clock` gives the later readings. */
  function Consumed(c: Config, peers: Peers, packet: Packet, addr: Addr, tm: int, clock: nat -> int)
    : (Peers, seq<Out>)
  {
    if Refused(c, packet) then (peers, [])
    else
      var id := packet.me.id;
      var peers0 := peers[id := SenderUpdate(Entry(peers, id, clock(0)), packet, addr, tm)];
      var (peers1, outs) := Befriend(c.machineId, peers0, packet.friends, addr, clock);
      (peers1, if packet.Ping? then outs + [OutPong(addr, packet.now, tm, peers1)] else outs)
  }

  // ---------------------------------------------------------------- what a packet never undoes

  /** The same host, known for as long, with no older report and no address lost. */
  predicate NoOlder(p: Peer, p': Peer) {
    && p'.id == p.id && p'.knownSince == p.knownSince
    && (p.report.Some? ==> p'.report.Some? && p'.report.value.0 >= p.report.value.0)
    && (p.primaryAddr.Some? ==> p'.primaryAddr.Some?)
  }

  ghost predicate NothingLost(peers: Peers, peers': Peers) {
    forall id | id in peers :: id in peers' && NoOlder(peers[id], peers'[id])
  }

  /** A report with its time. */
  type Dated = Option<(int, Report)>

  /** Hearsay beats what is held only when it is strictly newer, or when nothing is held. */
  predicate Beats(said: Option<int>, held: Option<int>) {
    said.Some? && (held.None? || held.value < said.value)
  }

  function DateOf(r: Dated): Option<int> {
    if r.None? then None else Some(r.value.0)
  }

  /**
   A friend list only adds: its report and its round trip are taken when they beat those held, its names
   where there is none, its address when none is known, and then, only then, that address is probed.
   What the peer said of itself stays.
   */
  lemma FriendIsNoOlder(p: Peer, f: FriendInfo, source: Addr, now: int)
    ensures var (p', probe) := FriendUpdate(p, f, source, now);
      && NoOlder(p, p')
      && p'.addresses == p.addresses + f.addresses
      && p'.report == (if Beats(DateOf(f.report), DateOf(p.report)) then f.report else p.report)
      && p'.lastReportDirect == p.lastReportDirect
      && p'.hostname == (if p.hostname.Some? then p.hostname else f.host)
      && p'.name == (if p.name.Some? then p.name else f.name)
      && p'.lastRoundtrip == p.lastRoundtrip
      && p'.randomPeerRoundtrip ==
           (if Beats(if f.roundtrip.Some? then Some(f.roundtrip.value.0) else None,
                     if p.randomPeerRoundtrip.Some? then Some(p.randomPeerRoundtrip.value.1) else None)
            then Some((source, f.roundtrip.value.0, f.roundtrip.value.1)) else p.randomPeerRoundtrip)
      && probe == (if p.primaryAddr.Some? then None else f.myPrimaryAddr)
      && p'.primaryAddr == (if p.primaryAddr.Some? then p.primaryAddr else f.myPrimaryAddr)
      && p'.lastProbe == (if probe.Some? then Some((now, probe.value)) else p.lastProbe)
      && p'.probesSent == p.probesSent + (if probe.Some? then 1 else 0)
      && p'.pingsReceived == p.pingsReceived && p'.pongsReceived == p.pongsReceived
  {}

  /** A peer passed on to a node that did not know it arrives whole, but for what only concerns this node. */
  lemma PeerIsPassedOn(p: Peer, source: Addr, since: int, now: int)
    ensures var (p', probe) := FriendUpdate(NewPeer(p.id, since), FriendOf(p), source, now);
      && p'.id == p.id && p'.addresses == p.addresses && p'.primaryAddr == p.primaryAddr == probe
      && p'.hostname == p.hostname && p'.name == p.name && p'.report == p.report
      && p'.lastReportDirect == None && p'.lastRoundtrip == None && p'.knownSince == since
      && (p'.randomPeerRoundtrip.Some? <==> p.lastRoundtrip.Some?)
      && (p.lastRoundtrip.Some? ==>
            p'.randomPeerRoundtrip == Some((source, p.lastRoundtrip.value.1, p.lastRoundtrip.value.2)))
  {
    FriendIsNoOlder(NewPeer(p.id, since), FriendOf(p), source, now);
    hide FriendUpdate;
  }

  /** What a host says of itself counts, but for a report older than the one known. */
  lemma SenderIsBelieved(p: Peer, packet: Packet, addr: Addr, tm: int)
    ensures var p' := SenderUpdate(p, packet, addr, tm);
      && p'.id == p.id && p'.knownSince == p.knownSince
      && p'.addresses == packet.me.addresses && p'.primaryAddr == Some(addr)
      && p'.hostname == Some(packet.me.host) && p'.name == Some(packet.me.name)
      && p'.report == (if Beats(Some(tm), DateOf(p.report)) then Some((tm, packet.me.report)) else p.report)
      && p'.lastReportDirect == (if Beats(Some(tm), DateOf(p.report)) then Some(tm) else p.lastReportDirect)
      && p'.pingsReceived == p.pingsReceived + (if packet.Ping? then 1 else 0)
      && p'.pongsReceived == p.pongsReceived + (if packet.Pong? then 1 else 0)
      && p'.lastProbe == p.lastProbe && p'.probesSent == p.probesSent
      && p'.randomPeerRoundtrip == p.randomPeerRoundtrip
      && p'.lastRoundtrip ==
           (if packet.Pong? && packet.pingTime <= tm && packet.pingTime <= packet.peerTime
            then Some((addr, tm, tm - packet.pingTime)) else p.lastRoundtrip)
  {}

  // ---------------------------------------------------------------- what a node knows after a packet

  /** Report `i` is later than all before it and no earlier than any after it. */
  predicate NewestAt(said: seq<Dated>, i: nat) {
    && i < |said| && said[i].Some?
    && (forall j | 0 <= j < i && said[j].Some? :: said[j].value.0 < said[i].value.0)
    && (forall j | i < j < |said| && said[j].Some? :: said[j].value.0 <= said[i].value.0)
  }

  /** `r` is the newest report of `said`, the first one of its time; nothing when there is none. */
  ghost predicate Newest(said: seq<Dated>, r: Dated) {
    if forall x | x in said :: x == None then r == None else exists i: nat :: NewestAt(said, i) && said[i] == r
  }

  lemma NewestMore(said: seq<Dated>, r: Dated, x: Dated)
    requires Newest(said, r)
    ensures Newest(said + [x], if Beats(DateOf(x), DateOf(r)) then x else r)
  {
    var all, n := said + [x], |said|;
    assert forall i | 0 <= i < n :: all[i] == said[i];
    assert all[n] == x;
    if x.None? {
      if r.Some? {
        var i: nat :| NewestAt(said, i) && said[i] == r;
        assert NewestAt(all, i) && all[i] in all;
      }
    } else {
      assert x in all;
      if r.None? {
        assert forall j | 0 <= j < n :: said[j] in said;
        assert NewestAt(all, n);
      } else {
        var i: nat :| NewestAt(said, i) && said[i] == r;
        if r.value.0 < x.value.0 {
          assert NewestAt(all, n);
        } else {
          assert NewestAt(all, i);
        }
      }
    }
  }

  /** What a friend list says of `id`, in order. */
  function ReportsOf(friends: seq<FriendInfo>, id: Id): (r: seq<Dated>)
    ensures |r| == |friends|
  {
    seq(|friends|, i requires 0 <= i < |friends| => if friends[i].id == id then friends[i].report else None)
  }

  function Held(peers: Peers, id: Id): Dated {
    if id in peers then peers[id].report else None
  }

  predicate Named(friends: seq<FriendInfo>, id: Id) {
    exists i | 0 <= i < |friends| :: friends[i].id == id
  }

  /** What hearsay leaves alone of a peer: since when it is known, what it said itself, and how often. */
  predicate SameWord(p: Peer, p': Peer) {
    && p'.knownSince == p.knownSince
    && p'.lastReportDirect == p.lastReportDirect && p'.lastRoundtrip == p.lastRoundtrip
    && p'.pingsReceived == p.pingsReceived && p'.pongsReceived == p.pongsReceived
  }

  /** One friend, seen from any host. */
  lemma FriendHears(self: Id, peers: Peers, outs: seq<Out>, f: FriendInfo, source: Addr, now: int, later: int, id: Id)
    requires id != self
    ensures var peers' := BefriendOne(self, peers, outs, f, source, now, later).0;
      var x := if f.id == id then f.report else None;
      && (id in peers' <==> id in peers || f.id == id)
      && Held(peers', id) == (if Beats(DateOf(x), DateOf(Held(peers, id))) then x else Held(peers, id))
      && (id in peers ==> SameWord(peers[id], peers'[id]))
      && (id in peers' && id !in peers ==> peers'[id].lastReportDirect == None && peers'[id].knownSince == now)
  {
    FriendIsNoOlder(Entry(peers, f.id, now), f, source, later);
    hide FriendUpdate, NoOlder;
  }

  /**
   The whole list: of every other host the node then knows the newest report of those it held (`said`)
   and heard; it knows those hosts it knew and those named, and takes no one's word for theirs.
   */
  lemma {:induction false} BefriendHears(self: Id, peers: Peers, friends: seq<FriendInfo>, source: Addr,
                                         clock: nat -> int, id: Id, said: seq<Dated>)
    requires id != self && Newest(said, Held(peers, id))
    ensures var peers' := Befriend(self, peers, friends, source, clock).0;
      && (id in peers' <==> id in peers || Named(friends, id))
      && Newest(said + ReportsOf(friends, id), Held(peers', id))
      && (id in peers ==> SameWord(peers[id], peers'[id]))
      && (id in peers' && id !in peers ==>
            peers'[id].lastReportDirect == None && exists i: nat :: peers'[id].knownSince == clock(i))
  {
    hide Newest, BefriendOne;
    if friends == [] {
      assert said + ReportsOf(friends, id) == said;
    } else {
      var n := |friends| - 1;
      var f, before := friends[n], friends[..n];
      var (peers0, outs) := Befriend(self, peers, before, source, clock);
      BefriendHears(self, peers, before, source, clock, id, said);
      FriendHears(self, peers0, outs, f, source, clock(2 * n + 1), clock(2 * n + 2), id);
      NewestMore(said + ReportsOf(before, id), Held(peers0, id), if f.id == id then f.report else None);
      ReportsLast(friends, id);
      var started := clock(2 * n + 1);
      assert said + ReportsOf(friends, id)
          == said + ReportsOf(before, id) + [if f.id == id then f.report else None];
      hide Befriend, Held, Beats, ReportsOf, Named;
    }
  }

  lemma ReportsLast(friends: seq<FriendInfo>, id: Id)
    requires friends != []
    ensures var n := |friends| - 1;
      && ReportsOf(friends, id)
           == ReportsOf(friends[..n], id) + [if friends[n].id == id then friends[n].report else None]
      && (Named(friends, id) <==> Named(friends[..n], id) || friends[n].id == id)
  {}

  /**
   The same after a whole packet: of every host the node then knows the newest report of the one it
   held, the sender's own word and the hearsay, in that order.
   */
  lemma ConsumedHears(c: Config, peers: Peers, packet: Packet, addr: Addr, tm: int, clock: nat -> int, id: Id)
    requires packet.cluster == c.cluster && packet.me.id != c.machineId && id != c.machineId
    ensures var peers' := Consumed(c, peers, packet, addr, tm, clock).0;
      var own: Dated := if id == packet.me.id then Some((tm, packet.me.report)) else None;
      && (id in peers' <==> id in peers || id == packet.me.id || Named(packet.friends, id))
      && Newest([Held(peers, id)] + [own] + ReportsOf(packet.friends, id), Held(peers', id))
  {
    var own: Dated := if id == packet.me.id then Some((tm, packet.me.report)) else None;
    var sender := packet.me.id;
    var p := Entry(peers, sender, clock(0));
    var peers0 := peers[sender := SenderUpdate(p, packet, addr, tm)];
    SenderIsBelieved(p, packet, addr, tm);
    hide SenderUpdate, Befriend, Newest;
    JustHeld(Held(peers, id));
    NewestMore([Held(peers, id)], Held(peers, id), own);
    BefriendHears(c.machineId, peers0, packet.friends, addr, clock, id, [Held(peers, id)] + [own]);
  }

  lemma JustHeld(held: Dated)
    ensures Newest([held], held)
  {
    assert held.Some? ==> NewestAt([held], 0);
    assert held in [held];
  }

  /** Where a host is reached, if it is. */
  function AddrOf(peers: Peers, id: Id): Option<Addr> {
    if id in peers then peers[id].primaryAddr else None
  }

  /** The host got its first address on the way from `peers` to `peers'`. */
  predicate Reached(peers: Peers, peers': Peers, id: Id) {
    AddrOf(peers, id).None? && AddrOf(peers', id).Some?
  }

  predicate PingTo(o: Out, peers: Peers, id: Id) {
    o.OutPing? && AddrOf(peers, id) == Some(o.to)
  }

  /** Every newly reached host is sent a ping. */
  ghost predicate EachProbed(peers: Peers, peers': Peers, outs: seq<Out>) {
    forall id :: Reached(peers, peers', id) ==> exists o | o in outs :: PingTo(o, peers', id)
  }

  /** Every message sent is a ping to one of them. */
  ghost predicate NoneElse(peers: Peers, peers': Peers, outs: seq<Out>) {
    forall o | o in outs :: exists id :: Reached(peers, peers', id) && PingTo(o, peers', id)
  }

  ghost predicate Probed(peers: Peers, peers': Peers, outs: seq<Out>) {
    && (forall id :: AddrOf(peers, id).Some? ==> AddrOf(peers', id) == AddrOf(peers, id))
    && EachProbed(peers, peers', outs) && NoneElse(peers, peers', outs)
  }

  /** One friend's probe: sent exactly when it had no address and now has one. */
  lemma FriendProbes(self: Id, peers: Peers, outs: seq<Out>, f: FriendInfo, source: Addr, now: int, later: int)
    ensures var (peers', outs') := BefriendOne(self, peers, outs, f, source, now, later);
      && (forall id | id != f.id || id == self :: AddrOf(peers', id) == AddrOf(peers, id))
      && (f.id != self ==>
            AddrOf(peers', f.id) == if AddrOf(peers, f.id).Some? then AddrOf(peers, f.id) else f.myPrimaryAddr)
      && (if f.id != self && Reached(peers, peers', f.id)
          then outs' == outs + [OutPing(f.myPrimaryAddr.value, peers')] else outs' == outs)
  {
    FriendIsNoOlder(Entry(peers, f.id, now), f, source, later);
    hide FriendUpdate, NoOlder, Beats;
  }

  /** One more reached, the others as they were. */
  ghost predicate ReachedOne(peers: Peers, peers': Peers, id: Id) {
    Reached(peers, peers', id) && forall x | x != id :: AddrOf(peers', x) == AddrOf(peers, x)
  }

  lemma EachMore(peers: Peers, peers0: Peers, outs: seq<Out>, peers': Peers, o: Out, id: Id)
    requires EachProbed(peers, peers0, outs) && ReachedOne(peers0, peers', id) && PingTo(o, peers', id)
    ensures EachProbed(peers, peers', outs + [o])
  {
    hide AddrOf;
    assert (outs + [o])[|outs|] == o;
    forall x | Reached(peers, peers', x) ensures exists p | p in outs + [o] :: PingTo(p, peers', x) {
      if x != id {
        assert AddrOf(peers', x) == AddrOf(peers0, x) && Reached(peers, peers0, x);
        var p :| p in outs && PingTo(p, peers0, x);
        assert p in outs + [o] && PingTo(p, peers', x);
      }
    }
  }

  lemma NoneMore(peers: Peers, peers0: Peers, outs: seq<Out>, peers': Peers, o: Out, id: Id)
    requires NoneElse(peers, peers0, outs) && ReachedOne(peers0, peers', id) && PingTo(o, peers', id)
    requires AddrOf(peers, id).None?
    ensures NoneElse(peers, peers', outs + [o])
  {
    hide AddrOf;
    forall p | p in outs + [o] ensures exists x :: Reached(peers, peers', x) && PingTo(p, peers', x) {
      if p in outs {
        var x :| Reached(peers, peers0, x) && PingTo(p, peers0, x);
        assert Reached(peers, peers', x) && PingTo(p, peers', x);
      } else {
        assert Reached(peers, peers', id) && PingTo(p, peers', id);
      }
    }
  }

  lemma ProbedMore(peers: Peers, peers0: Peers, outs: seq<Out>, peers': Peers, o: Out, id: Id)
    requires Probed(peers, peers0, outs) && ReachedOne(peers0, peers', id) && PingTo(o, peers', id)
    ensures Probed(peers, peers', outs + [o])
  {
    hide AddrOf, EachProbed, NoneElse;
    EachMore(peers, peers0, outs, peers', o, id);
    NoneMore(peers, peers0, outs, peers', o, id);
  }

  lemma ProbedSame(peers: Peers, peers0: Peers, outs: seq<Out>, peers': Peers)
    requires Probed(peers, peers0, outs) && forall x :: AddrOf(peers', x) == AddrOf(peers0, x)
    ensures Probed(peers, peers', outs)
  {
    hide AddrOf;
    forall x ensures Reached(peers, peers', x) == Reached(peers, peers0, x) {}
    forall o, x ensures PingTo(o, peers', x) == PingTo(o, peers0, x) {}
    hide Reached, PingTo;
    assert EachProbed(peers, peers', outs) by { hide NoneElse; }
    assert NoneElse(peers, peers', outs) by { hide EachProbed; }
  }

  /** A friend list makes the node ping the hosts it can reach for the first time, and only those. */
  lemma {:induction false} BefriendProbes(self: Id, peers: Peers, friends: seq<FriendInfo>, source: Addr,
                                          clock: nat -> int)
    ensures var (peers', outs) := Befriend(self, peers, friends, source, clock); Probed(peers, peers', outs)
  {
    if friends != [] {
      var n := |friends| - 1;
      var (peers0, outs) := Befriend(self, peers, friends[..n], source, clock);
      BefriendProbes(self, peers, friends[..n], source, clock);
      FriendProbes(self, peers0, outs, friends[n], source, clock(2 * n + 1), clock(2 * n + 2));
      hide BefriendOne, Probed, AddrOf;
      var (peers', outs') := Befriend(self, peers, friends, source, clock);
      if friends[n].id != self && Reached(peers0, peers', friends[n].id) {
        ProbedMore(peers, peers0, outs, peers', OutPing(friends[n].myPrimaryAddr.value, peers'), friends[n].id);
      } else {
        ProbedSame(peers, peers0, outs, peers');
      }
    }
  }

  /**
   A packet of another cluster, or of the node itself, does nothing.  Any other Ping is answered by one
   Pong, sent last, with the time it carried; nothing else sends one.
   */
  lemma ConsumedAnswers(c: Config, peers: Peers, packet: Packet, addr: Addr, tm: int, clock: nat -> int)
    ensures var (peers', outs) := Consumed(c, peers, packet, addr, tm, clock);
      && (packet.cluster != c.cluster || packet.me.id == c.machineId ==> peers' == peers && outs == [])
      && (packet.cluster == c.cluster && packet.me.id != c.machineId && packet.Ping? ==>
            && outs != [] && outs[|outs| - 1] == OutPong(addr, packet.now, tm, peers')
            && forall i | 0 <= i < |outs| - 1 :: outs[i].OutPing?)
      && (packet.Pong? ==> forall i | 0 <= i < |outs| :: outs[i].OutPing?)
  {
    if !Refused(c, packet) {
      var sender := packet.me.id;
      var peers0 := peers[sender := SenderUpdate(Entry(peers, sender, clock(0)), packet, addr, tm)];
      var (peers', outs) := Befriend(c.machineId, peers0, packet.friends, addr, clock);
      BefriendProbes(c.machineId, peers0, packet.friends, addr, clock);
      OnlyPings(peers0, peers', outs);
      hide SenderUpdate, Befriend, Probed;
    }
  }

  lemma OnlyPings(peers: Peers, peers': Peers, outs: seq<Out>)
    requires Probed(peers, peers', outs)
    ensures forall i | 0 <= i < |outs| :: outs[i].OutPing?
  {
    hide Reached, AddrOf, EachProbed;
    forall i | 0 <= i < |outs| ensures outs[i].OutPing? {
      assert outs[i] in outs;
    }
  }

  lemma SenderIsNoOlder(p: Peer, packet: Packet, addr: Addr, tm: int)
    ensures NoOlder(p, SenderUpdate(p, packet, addr, tm))
    ensures SenderUpdate(p, packet, addr, tm).primaryAddr == Some(addr)
  {}

  lemma {:induction false} BefriendLosesNothing(self: Id, peers: Peers, friends: seq<FriendInfo>,
                                                source: Addr, clock: nat -> int)
    ensures NothingLost(peers, Befriend(self, peers, friends, source, clock).0)
  {
    if friends != [] {
      var n := |friends| - 1;
      BefriendLosesNothing(self, peers, friends[..n], source, clock);
      var peers0 := Befriend(self, peers, friends[..n], source, clock).0;
      FriendIsNoOlder(Entry(peers0, friends[n].id, clock(2 * n + 1)), friends[n], source, clock(2 * n + 2));
      hide FriendUpdate;
    }
  }

  /** Whatever packet comes in, no peer is forgotten, loses its address or goes back to an older report. */
  lemma ConsumedLosesNothing(c: Config, peers: Peers, packet: Packet, addr: Addr, tm: int, clock: nat -> int)
    ensures NothingLost(peers, Consumed(c, peers, packet, addr, tm, clock).0)
  {
    if !Refused(c, packet) {
      var id := packet.me.id;
      SenderIsNoOlder(Entry(peers, id, clock(0)), packet, addr, tm);
      hide SenderUpdate, Befriend;
      var peers0 := peers[id := SenderUpdate(Entry(peers, id, clock(0)), packet, addr, tm)];
      BefriendLosesNothing(c.machineId, peers0, packet.friends, addr, clock);
      assert NothingLost(peers, peers0);
    }
  }
}
