/** The gossip protocol object with its fields updated in place (src/gossip/proto.rs). */
module GossipProto {
  import opened Wrappers
  import opened GossipPeers
  import opened GossipNode
  import opened GossipHosts

  /**
   What considering one peer for a ping may do; both tests read the clock.  It is left alone while its
   report is no older than the shorter interval and its last probe no older than the longer one.  Its
   primary address is trusted when it was never probed, while an answer may still come, and while it
   spoke for itself a short time ago.
   */
  ghost predicate PingStep(c: Config, peers: Peers, id: Id, tm: int, now: int, later: int,
                           peers': Peers, outs: seq<Out>) {
    if id !in peers then peers' == peers && outs == []
    else if
      && Within(ReportTime(peers[id]), c.minPingInterval, now)
      && Within(ProbeTime(peers[id]), c.maxPingInterval, now)
    then peers' == peers && outs == []
    else
      var p := peers[id];
      var trusted := ProbeTime(p).None? || Within(ProbeTime(p), c.maxRoundtrip - 1, later)
                     || Within(p.lastReportDirect, c.prefailTime - 1, later);
      exists addr: Option<Addr> ::
        && (if p.primaryAddr.Some? && trusted then addr == p.primaryAddr else MayProbe(p, addr))
        && (if addr.None? then peers' == peers && outs == []
            else && peers' == peers[id := p.(lastProbe := Some((tm, addr.value)), probesSent := p.probesSent + 1)]
                 && outs == [OutPing(addr.value, peers')])
  }

  /** A round: each popped id considered in turn, from one state of the peers to the next. */
  ghost predicate RoundSteps(c: Config, popped: seq<Id>, tm: int, clock: nat -> int,
                             before: Peers, states: seq<Peers>, after: Peers, outs: seq<seq<Out>>) {
    && |states| == |popped| + 1 && |outs| == |popped|
    && states[0] == before && states[|popped|] == after
    && forall i | 0 <= i < |popped| ::
         PingStep(c, states[i], popped[i], tm, clock(2 * i), clock(2 * i + 1), states[i + 1], outs[i])
  }

  lemma RoundStarts(c: Config, tm: int, clock: nat -> int, peers: Peers)
    ensures RoundSteps(c, [], tm, clock, peers, [peers], peers, []) && Flatten([]) == []
    ensures forall q :: Popped(q, 0) == []
  {}

  lemma PoppedAll(q: seq<Id>, i: nat, k: nat)
    requires i == |q| <= k
    ensures Popped(q, i) == Popped(q, k)
  {}

  lemma PoppedNext(q: seq<Id>, i: nat)
    requires i < |q|
    ensures Popped(q, i + 1) == Popped(q, i) + [q[|q| - 1 - i]]
  {}

  lemma RoundGrows(c: Config, popped: seq<Id>, id: Id, tm: int, clock: nat -> int, before: Peers,
                   states: seq<Peers>, outs: seq<seq<Out>>, after: Peers, sent: seq<Out>)
    requires |states| == |popped| + 1
    requires RoundSteps(c, popped, tm, clock, before, states, states[|popped|], outs)
    requires PingStep(c, states[|popped|], id, tm, clock(2 * |popped|), clock(2 * |popped| + 1), after, sent)
    ensures RoundSteps(c, popped + [id], tm, clock, before, states + [after], after, outs + [sent])
  {
    hide PingStep;
  }

  lemma FlattenLast(outs: seq<seq<Out>>, sent: seq<Out>)
    ensures Flatten(outs + [sent]) == Flatten(outs) + sent
  {
    assert (outs + [sent])[..|outs|] == outs;
  }

  /** The ids popped by one round, in order: the last `k` of the queue, last first. */
  function Popped(q: seq<Id>, k: nat): (r: seq<Id>)
    ensures |r| == Least(k, |q|)
  {
    seq(Least(k, |q|), i requires 0 <= i < Least(k, |q|) => q[|q| - 1 - i])
  }

  function LeftAfter(q: seq<Id>, k: nat): seq<Id> {
    q[..|q| - Least(k, |q|)]
  }

  ghost predicate Lists(q: seq<Id>, ids: set<Id>) {
    && (forall id :: id in q <==> id in ids)
    && |q| == |ids|
  }

  /** Records sit under their own id, and a node keeps no record of itself. */
  ghost predicate PeersKnown(c: Config, peers: Peers) {
    c.machineId !in peers && forall id | id in peers :: peers[id].id == id
  }

  lemma ConsumedParts(c: Config, peers: Peers, packet: Packet, addr: Addr, tm: int, clock: nat -> int)
    ensures Refused(c, packet) ==> Consumed(c, peers, packet, addr, tm, clock) == (peers, [])
    ensures !Refused(c, packet) ==>
      var id := packet.me.id;
      var mid := peers[id := SenderUpdate(Entry(peers, id, clock(0)), packet, addr, tm)];
      var b := Befriend(c.machineId, mid, packet.friends, addr, clock);
      && Consumed(c, peers, packet, addr, tm, clock).0 == b.0
      && Consumed(c, peers, packet, addr, tm, clock).1
           == if packet.Ping? then b.1 + [OutPong(addr, packet.now, tm, b.0)] else b.1
  {
    hide SenderUpdate, Befriend;
  }

  /** One friend, seen by the loop. */
  lemma OneFriend(self: Id, peers: Peers, outs: seq<Out>, f: FriendInfo, source: Addr, now: int, later: int)
    ensures f.id == self ==> BefriendOne(self, peers, outs, f, source, now, later) == (peers, outs)
    ensures f.id != self ==>
      var (p, probe) := FriendUpdate(Entry(peers, f.id, now), f, source, later);
      && BefriendOne(self, peers, outs, f, source, now, later).0 == peers[f.id := p]
      && BefriendOne(self, peers, outs, f, source, now, later).1
           == if probe.Some? then outs + [OutPing(probe.value, peers[f.id := p])] else outs
  {
    hide FriendUpdate, Entry;
  }

  lemma AppendLast(a: seq<Out>, b: seq<Out>, o: Out)
    ensures a + b + [o] == a + (b + [o])
  {}

  class Proto {
    const c: Config
    var peers: Peers
    var addrStatus: map<Addr, AddrStatus>
    var addQueue: set<FutureHost>
    var pingQueue: seq<Id>
    var outbox: seq<Out>                 // everything sent, oldest first
    var triggers: nat                    // how often subscribers to peers were told
    var numPeers: nat                    // the metric of that name
    ghost var everQueued: multiset<Addr>  // every push of a new host
    ghost var retried: multiset<Addr>     // every ping sent by the retry loop

    ghost predicate Valid()
      reads this
    {
      PeersKnown(c, peers) && QueueSound(c.retryTimes, addrStatus.Keys, addQueue, everQueued, retried)
    }

    /** What the handling of added hosts reads and changes. */
    ghost function Adds(): Adding
      reads this
    {
      Adding(addrStatus, addQueue, outbox)
    }

    ghost function Book(): Ledger
      reads this
    {
      Ledger(Adds(), everQueued, retried)
    }

    constructor (c: Config)
      ensures Valid() && this.c == c && peers == map[] && outbox == [] && addQueue == {}
    {
      this.c := c;
      peers := map[];
      addrStatus := map[];
      addQueue := {};
      pingQueue := [];
      outbox := [];
      triggers := 0;
      numPeers := 0;
      everQueued := multiset{};
      retried := multiset{};
    }

    // -------------------------------------------------------------- receiving

    method ConsumeGossip(packet: Packet, addr: Addr, tm: int, clock: nat -> int)
      requires Valid()
      modifies this`peers, this`addrStatus, this`outbox, this`triggers, this`numPeers
      ensures Valid()
      ensures peers == Consumed(c, old(peers), packet, addr, tm, clock).0
      ensures outbox == old(outbox) + Consumed(c, old(peers), packet, addr, tm, clock).1
      ensures packet.cluster != c.cluster || packet.me.id == c.machineId ==>
        && peers == old(peers) && outbox == old(outbox) && addrStatus == old(addrStatus)
        && triggers == old(triggers) && numPeers == old(numPeers)
      ensures packet.cluster == c.cluster && packet.me.id != c.machineId ==>
        && addrStatus == old(addrStatus)[addr := Available] && triggers == old(triggers) + 1
        && numPeers == if packet.me.id in old(peers) then old(numPeers) else |peers|
    {
      if packet.cluster != c.cluster {
        return;
      }
      if packet.me.id == c.machineId {
        return;
      }
      Accept(packet, addr, tm, clock);
    }

    method Accept(packet: Packet, addr: Addr, tm: int, clock: nat -> int)
      requires Valid() && !Refused(c, packet)
      modifies this`peers, this`addrStatus, this`outbox, this`triggers, this`numPeers
      ensures Valid() && triggers == old(triggers) + 1
      ensures numPeers == if packet.me.id in old(peers) then old(numPeers) else |peers|
      ensures peers == Consumed(c, old(peers), packet, addr, tm, clock).0
      ensures outbox == old(outbox) + Consumed(c, old(peers), packet, addr, tm, clock).1
      ensures addrStatus == old(addrStatus)[addr := Available]
    {
      ConsumedParts(c, peers, packet, addr, tm, clock);
      hide Consumed, SenderUpdate, Befriend, Entry, PeersKnown, QueueSound;
      var update := packet.me.id !in peers;
      MarkAvailable(addr);
      UpdateSender(packet, addr, tm, clock(0));
      ghost var outs := Befriend(c.machineId, peers, packet.friends, addr, clock).1;
      ApplyFriends(packet.friends, addr, clock);
      if packet.Ping? {
        AppendLast(old(outbox), outs, OutPong(addr, packet.now, tm, peers));
        outbox := outbox + [OutPong(addr, packet.now, tm, peers)];
      }
      if update {
        numPeers := |peers|;
      }
      triggers := triggers + 1;
    }

    method MarkAvailable(addr: Addr)
      requires Valid()
      modifies this`addrStatus
      ensures Valid() && Book() == After(c, peers, old(Book()), Reply(addr))
    {
      QueueKnowsMore(c.retryTimes, addrStatus.Keys, addrStatus.Keys + {addr}, addQueue, everQueued, retried);
      addrStatus := addrStatus[addr := Available];
    }

    method UpdateSender(packet: Packet, addr: Addr, tm: int, now: int)
      requires Valid() && packet.me.id != c.machineId
      modifies this`peers
      ensures Valid()
      ensures peers == old(peers)[packet.me.id := SenderUpdate(Entry(old(peers), packet.me.id, now), packet, addr, tm)]
    {
      hide QueueSound, Heard;
      var id, me := packet.me.id, packet.me;
      var peer := if id in peers then peers[id] else NewPeer(id, now);
      peer := ApplyAddresses(peer, me.addresses, true);
      peer := ApplyReport(peer, Some((tm, me.report)), true);
      match packet {
        case Ping(_, _, _, _) =>
          peer := ApplyHostname(peer, Some(me.host), true);
          peer := ApplyNodeName(peer, Some(me.name), true);
          peer := peer.(pingsReceived := peer.pingsReceived + 1);
        case Pong(_, _, pingTime, peerTime, _) =>
          peer := peer.(pongsReceived := peer.pongsReceived + 1);
          if pingTime <= tm && pingTime <= peerTime {
            peer := ApplyRoundtrip(peer, (tm, tm - pingTime), addr, true);
          }
          peer := ApplyHostname(peer, Some(me.host), true);
          peer := ApplyNodeName(peer, Some(me.name), true);
      }
      if peer.primaryAddr != Some(addr) {
        peer := peer.(primaryAddr := Some(addr));
      }
      peers := peers[id := peer];
    }

    method ApplyFriends(friends: seq<FriendInfo>, source: Addr, clock: nat -> int)
      requires Valid()
      modifies this`peers, this`outbox
      ensures Valid()
      ensures peers == Befriend(c.machineId, old(peers), friends, source, clock).0
      ensures outbox == old(outbox) + Befriend(c.machineId, old(peers), friends, source, clock).1
    {
      assert Befriend(c.machineId, peers, friends[..0], source, clock) == (peers, []);
      hide *;
      ghost var outs: seq<Out> := [];
      for i := 0 to |friends|
        invariant Valid()
        invariant (peers, outs) == Befriend(c.machineId, old(peers), friends[..i], source, clock)
        invariant outbox == old(outbox) + outs
      {
        BefriendNext(c.machineId, old(peers), friends, source, clock, i);
        OneFriend(c.machineId, peers, outs, friends[i], source, clock(2 * i + 1), clock(2 * i + 2));
        if friends[i].id == c.machineId {
          continue;
        }
        var sendTo := ApplyFriend(friends[i], source, clock(2 * i + 1), clock(2 * i + 2));
        if sendTo.Some? {
          AppendLast(old(outbox), outs, OutPing(sendTo.value, peers));
          outbox := outbox + [OutPing(sendTo.value, peers)];
          outs := outs + [OutPing(sendTo.value, peers)];
        }
      }
      assert friends[..|friends|] == friends;
    }

    method ApplyFriend(f: FriendInfo, source: Addr, now: int, later: int) returns (sendTo: Option<Addr>)
      requires Valid() && f.id != c.machineId
      modifies this`peers
      ensures Valid()
      ensures (peers, sendTo) == (old(peers)[f.id := FriendUpdate(Entry(old(peers), f.id, now), f, source, later).0],
                                  FriendUpdate(Entry(old(peers), f.id, now), f, source, later).1)
    {
      hide QueueSound, Heard;
      var peer := if f.id in peers then peers[f.id] else NewPeer(f.id, now);
      peer := ApplyAddresses(peer, f.addresses, false);
      peer := ApplyReport(peer, f.report, false);
      peer := ApplyHostname(peer, f.host, false);
      peer := ApplyNodeName(peer, f.name, false);
      if f.roundtrip.Some? {
        peer := ApplyRoundtrip(peer, f.roundtrip.value, source, false);
      }
      sendTo := None;
      if peer.primaryAddr.None? {
        peer := peer.(primaryAddr := f.myPrimaryAddr);
        if f.myPrimaryAddr.Some? {
          peer := peer.(lastProbe := Some((later, f.myPrimaryAddr.value)), probesSent := peer.probesSent + 1);
        }
        sendTo := f.myPrimaryAddr;
      }
      peers := peers[f.id := peer];
    }

    /** The collector's sweep: the peers whose last sign of life is too old go, the rest stay as they are. */
    method RemoveFailedNodes(now: int)
      requires Valid()
      modifies this`peers
      ensures Valid()
      ensures forall id | id in peers :: id in old(peers) && peers[id] == old(peers)[id]
      ensures forall id | id in old(peers) && old(peers)[id].report.Some? ::
        id in peers <==> Within(ReportTime(old(peers)[id]), c.removeTime, now)
      ensures forall id | id in old(peers) && old(peers)[id].report.None? ::
        id in peers <==> Within(Some(old(peers)[id].knownSince), c.removeTime, now)
    {
      var kept: Peers := map[];
      var todo := peers.Keys;
      while todo != {}
        invariant todo <= peers.Keys && peers == old(peers)
        invariant forall id :: id in kept <==> id in peers && id !in todo && !ShouldRemove(peers[id], c, now)
        invariant forall id | id in kept :: kept[id] == peers[id]
        decreases todo
      {
        var id :| id in todo;
        todo := todo - {id};
        if !ShouldRemove(peers[id], c, now) {
          kept := kept[id := peers[id]];
        }
      }
      peers := kept;
    }

    /** The friends a packet carries: some of the peers that are neither the addressee nor failing. */
    method GetFriends(exclude: Addr, now: int) returns (friends: seq<FriendInfo>)
      requires Valid()
      ensures MaySend(peers, exclude, friends, c, now)
      ensures |friends| < c.numFriends ==>
        forall id | id in peers && MayName(peers[id], exclude, c, now) :: FriendOf(peers[id]) in friends
    {
      friends := [];
      ghost var ids: seq<Id> := [];
      var todo := peers.Keys;
      hide FriendOf, QueueSound;
      while todo != {} && |friends| < c.numFriends
        invariant todo <= peers.Keys && |ids| == |friends| <= c.numFriends
        invariant forall i | 0 <= i < |ids| :: ids[i] in peers && ids[i] !in todo
        invariant forall i | 0 <= i < |ids| :: friends[i] == FriendOf(peers[ids[i]]) && friends[i].id == ids[i]
        invariant forall i | 0 <= i < |ids| :: MayName(peers[ids[i]], exclude, c, now)
        invariant forall i, j | 0 <= i < j < |ids| :: ids[i] != ids[j]
        invariant forall id | id in peers && id !in todo && MayName(peers[id], exclude, c, now) :: id in ids
        decreases todo
      {
        var id :| id in todo;
        todo := todo - {id};
        if exclude !in peers[id].addresses && !IsFailing(peers[id], c, now) {
          var friend := Describe(peers[id]);
          assert friend.id == id by { FriendHasId(peers[id]); }
          friends, ids := friends + [friend], ids + [id];
        }
      }
      forall id | |friends| < c.numFriends && id in peers && MayName(peers[id], exclude, c, now)
        ensures FriendOf(peers[id]) in friends
      {
        var i :| 0 <= i < |ids| && ids[i] == id;
        assert friends[i] in friends;
      }
      hide MayName;
      forall i | 0 <= i < |friends|
        ensures exists id | id in peers :: friends[i] == FriendOf(peers[id]) && MayName(peers[id], exclude, c, now)
      {
        var id := ids[i];
        assert friends[i] == FriendOf(peers[id]);
      }
    }

    static lemma FriendHasId(p: Peer)
      ensures FriendOf(p).id == p.id
    {}

    static method Describe(p: Peer) returns (f: FriendInfo)
      ensures f == FriendOf(p)
    {
      var roundtrip := None;
      if p.lastRoundtrip.Some? {
        roundtrip := Some((p.lastRoundtrip.value.1, p.lastRoundtrip.value.2));
      }
      f := FriendInfo(p.id, p.primaryAddr, p.addresses, p.hostname, p.name, p.report, roundtrip);
    }

    // -------------------------------------------------------------- hosts added by hand

    /** One `AddHost` command. */
    method AddHost(addr: Addr, now: int, timeout: nat)
      requires Valid()
      modifies this`addrStatus, this`addQueue, this`outbox, this`everQueued
      ensures Valid()
      ensures Book() == After(c, peers, old(Book()), Command(addr, now, timeout))
      ensures forall a | a in everQueued :: everQueued[a] == 1
    {
      QueuedOnce(c.retryTimes, addrStatus.Keys, addQueue, everQueued, retried);
      hide QueueSound, PeersKnown;
      var status := if addr in addrStatus then Some(addrStatus[addr]) else None;
      match status {
        case Some(Available) =>
        case _ => outbox := outbox + [OutPing(addr, peers)];
      }
      match status {
        case Some(Available) =>
        case Some(PingSent) =>
        case None =>
          Enqueue(FutureHost(now + timeout, addr, 1, timeout));
      }
    }

    method Enqueue(added: FutureHost)
      requires Valid() && added.address !in addrStatus && added.attempts == 1
      modifies this`addrStatus, this`addQueue, this`everQueued
      ensures Valid() && addrStatus == old(addrStatus)[added.address := PingSent]
      ensures addQueue == old(addQueue) + {added}
      ensures everQueued == old(everQueued) + multiset{added.address}
      ensures forall a | a in everQueued :: everQueued[a] == 1
    {
      QueueGrows(c.retryTimes, addrStatus.Keys, addQueue, everQueued, retried, added);
      assert addrStatus[added.address := PingSent].Keys == addrStatus.Keys + {added.address};
      addrStatus := addrStatus[added.address := PingSent];
      addQueue := addQueue + {added};
      everQueued := everQueued + multiset{added.address};
      QueuedOnce(c.retryTimes, addrStatus.Keys, addQueue, everQueued, retried);
      hide QueueSound, PeersKnown;
    }

    method InternalMessages(commands: seq<Addr>, clock: nat -> int, sleep: nat -> nat)
      requires Valid()
      modifies this`addrStatus, this`addQueue, this`outbox, this`everQueued
      ensures Valid()
      ensures Adds() == AddedAll(peers, old(Adds()), commands, clock, sleep)
      ensures old(everQueued) <= everQueued
    {
      hide QueueSound, PeersKnown, Added;
      for i := 0 to |commands|
        invariant Valid() && old(everQueued) <= everQueued
        invariant Adds() == AddedAll(peers, old(Adds()), commands[..i], clock, sleep)
      {
        assert commands[..i + 1][..i] == commands[..i];
        AddHost(commands[i], clock(i), sleep(i));
      }
      assert commands[..|commands|] == commands;
    }

    /**
     Retry hosts while the LATEST deadline in the heap is due.  Clock readings and sleeps are
     arbitrary; the budget falls on every turn, so the loop ends under any clock.
     */
    method RetryNewHosts(clock: nat -> int, sleep: nat -> nat)
      returns (ghost hosts: seq<FutureHost>, ghost states: seq<Adding>)
      requires Valid()
      modifies this`addrStatus, this`addQueue, this`outbox, this`retried
      ensures Valid()
      ensures RetryTurns(c, peers, hosts, states, clock, sleep)
      ensures |states| == |hosts| + 1 && states[0] == old(Adds()) && states[|hosts|] == Adds()
      ensures NothingDue(addQueue, clock(2 * |hosts|))
      ensures |hosts| + Budget(addQueue, c.retryTimes) <= Budget(old(addQueue), c.retryTimes)
    {
      var turn := 0;
      hosts, states := [], [Adds()];
      NoTurns(c, peers, Adds(), clock, sleep);
      hide QueueSound, PeersKnown, Retried, RetryTurns, Budget;
      while true
        invariant Valid() && turn == |hosts| && |states| == turn + 1
        invariant RetryTurns(c, peers, hosts, states, clock, sleep)
        invariant states[0] == old(Adds()) && states[|hosts|] == Adds()
        invariant |hosts| + Budget(addQueue, c.retryTimes) <= Budget(old(addQueue), c.retryTimes)
        decreases Budget(addQueue, c.retryTimes)
      {
        if addQueue == {} {
          break;
        }
        LatestExists(addQueue);
        var host :| host in addQueue && IsLatest(addQueue, host);
        if host.deadline >= clock(2 * turn) {
          break;
        }
        RetryOne(host, clock(2 * turn + 1), sleep(turn));
        TurnMore(c, peers, hosts, states, clock, sleep, host, Adds());
        hosts, states := hosts + [host], states + [Adds()];
        turn := turn + 1;
      }
    }

    method RetryOne(host: FutureHost, now: int, timeout: nat)
      requires Valid() && host in addQueue
      modifies this`addrStatus, this`addQueue, this`outbox, this`retried
      ensures Valid()
      ensures Budget(addQueue, c.retryTimes) < Budget(old(addQueue), c.retryTimes)
      ensures Book() == After(c, peers, old(Book()), Turn(host, now, timeout))
    {
      BudgetRemove(addQueue, host, c.retryTimes);
      QueuedOnce(c.retryTimes, addrStatus.Keys, addQueue, everQueued, retried);
      QueueDrops(c.retryTimes, addrStatus.Keys, addQueue, everQueued, retried, host);
      hide PeersKnown, QueueSound, Budget;
      if host.address in addrStatus && addrStatus[host.address] == Available {
        addQueue := addQueue - {host};
        return;
      }
      if host.attempts > c.retryTimes {
        addQueue := addQueue - {host};
        return;
      }
      Resend(host, FutureHost(now + timeout, host.address, host.attempts + 1, timeout));
    }

    method Resend(host: FutureHost, next: FutureHost)
      requires Valid() && host in addQueue && host.attempts <= c.retryTimes && host.address in addrStatus
      requires next.address == host.address && next.attempts == host.attempts + 1
      modifies this`addrStatus, this`addQueue, this`outbox, this`retried
      ensures Valid()
      ensures Budget(addQueue, c.retryTimes) < Budget(old(addQueue), c.retryTimes)
      ensures addrStatus == old(addrStatus)[host.address := PingSent]
      ensures addQueue == old(addQueue) - {host} + {next}
      ensures outbox == old(outbox) + [OutPing(host.address, peers)]
      ensures retried == old(retried) + multiset{host.address}
    {
      QueueRetries(c.retryTimes, addrStatus.Keys, addQueue, everQueued, retried, host, next);
      BudgetRemove(addQueue, host, c.retryTimes);
      BudgetAdd(addQueue - {host}, next, c.retryTimes);
      hide PeersKnown, QueueSound, Budget;
      addQueue := addQueue - {host};
      addrStatus := addrStatus[host.address := PingSent];
      outbox := outbox + [OutPing(host.address, peers)];
      retried := retried + multiset{host.address};
      addQueue := addQueue + {next};
      assert addrStatus.Keys == old(addrStatus.Keys);
    }

    // -------------------------------------------------------------- the ping round

    method PingHosts(tm: int, clock: nat -> int)
      returns (ghost q: seq<Id>, ghost states: seq<Peers>, ghost outs: seq<seq<Out>>)
      requires Valid()
      modifies this`peers, this`pingQueue, this`outbox
      ensures Valid()
      ensures if old(pingQueue) == [] then Lists(q, old(peers.Keys)) else q == old(pingQueue)
      ensures pingQueue == LeftAfter(q, c.numPings)
      ensures RoundSteps(c, Popped(q, c.numPings), tm, clock, old(peers), states, peers, outs)
      ensures outbox == old(outbox) + Flatten(outs)
      ensures peers.Keys == old(peers.Keys)
    {
      states, outs := [peers], [];
      q := pingQueue;
      if |pingQueue| == 0 {
        if |peers| == 0 {
          return;
        }
        Refill();
        q := pingQueue;
      }
      states, outs := PingLast(tm, clock);
    }

    /** Pop and consider up to the configured number of ids. */
    method PingLast(tm: int, clock: nat -> int) returns (ghost states: seq<Peers>, ghost outs: seq<seq<Out>>)
      requires Valid()
      modifies this`peers, this`pingQueue, this`outbox
      ensures Valid() && peers.Keys == old(peers.Keys)
      ensures pingQueue == LeftAfter(old(pingQueue), c.numPings)
      ensures RoundSteps(c, Popped(old(pingQueue), c.numPings), tm, clock, old(peers), states, peers, outs)
      ensures outbox == old(outbox) + Flatten(outs)
    {
      hide PingStep, PeersKnown, QueueSound, RoundSteps, Flatten;
      ghost var q := pingQueue;
      states, outs := [peers], [];
      RoundStarts(c, tm, clock, peers);
      for i := 0 to c.numPings
        invariant Valid() && peers.Keys == old(peers.Keys)
        invariant i <= |q| && pingQueue == q[..|q| - i] && |states| == i + 1 && states[i] == peers
        invariant RoundSteps(c, Popped(q, i), tm, clock, old(peers), states, peers, outs)
        invariant outbox == old(outbox) + Flatten(outs)
      {
        if |pingQueue| == 0 {
          PoppedAll(q, i, c.numPings);
          break;
        }
        var id := pingQueue[|pingQueue| - 1];
        pingQueue := pingQueue[..|pingQueue| - 1];
        ghost var sent := ConsiderOne(id, tm, clock(2 * i), clock(2 * i + 1));
        PoppedNext(q, i);
        RoundGrows(c, Popped(q, i), id, tm, clock, old(peers), states, outs, peers, sent);
        FlattenLast(outs, sent);
        states, outs := states + [peers], outs + [sent];
      }
    }

    /** The known ids in an arbitrary order. */
    method Refill()
      requires Valid()
      modifies this`pingQueue
      ensures Valid() && Lists(pingQueue, peers.Keys)
    {
      pingQueue := [];
      var todo := peers.Keys;
      while todo != {}
        invariant todo <= peers.Keys
        invariant forall id :: id in pingQueue <==> id in peers.Keys && id !in todo
        invariant |pingQueue| + |todo| == |peers.Keys|
        decreases todo
      {
        var id :| id in todo;
        todo := todo - {id};
        pingQueue := pingQueue + [id];
      }
    }

    method ConsiderOne(id: Id, tm: int, now: int, later: int) returns (ghost sent: seq<Out>)
      requires Valid()
      modifies this`peers, this`outbox
      ensures Valid() && peers.Keys == old(peers.Keys)
      ensures PingStep(c, old(peers), id, tm, now, later, peers, sent)
      ensures outbox == old(outbox) + sent
    {
      hide QueueSound, MayProbe;
      sent := [];
      if id !in peers {
        return;
      }
      var peer := peers[id];
      if HasFreshReport(peer, c, now) {
        return;
      }
      var addr := peer.primaryAddr;
      if addr.None? || !PingPrimary(peer, c, later) {
        addr := RandomPingAddr(peer);
      }
      if addr.Some? {
        peers := peers[id := peer.(lastProbe := Some((tm, addr.value)), probesSent := peer.probesSent + 1)];
        sent := [OutPing(addr.value, peers)];
        outbox := outbox + [OutPing(addr.value, peers)];
      }
    }
  }

  method RandomPingAddr(p: Peer) returns (r: Option<Addr>)
    ensures MayProbe(p, r)
  {
    if p.lastProbe.Some? {
      var others := p.addresses - {p.lastProbe.value.1};
      if others == {} {
        r := Some(p.lastProbe.value.1);
      } else {
        var a :| a in others;
        r := Some(a);
      }
    } else if p.addresses == {} {
      r := None;
    } else {
      var a :| a in p.addresses;
      r := Some(a);
    }
  }

  ghost function Flatten(outs: seq<seq<Out>>): seq<Out> {
    if outs == [] then [] else Flatten(outs[..|outs| - 1]) + outs[|outs| - 1]
  }
}
