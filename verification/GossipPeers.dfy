/** What a node knows about another one, and the packets they exchange (src/gossip/peer.rs, src/gossip/info.rs). */
module GossipPeers {
  import opened Wrappers

  datatype Id = HostId(n: int)

  datatype Addr = Addr(ip: int, port: int)

  datatype Report = Report(peers: nat, hasRemote: bool)

  datatype Peer = Peer(
    id: Id,
    knownSince: int,
    primaryAddr: Option<Addr>,
    addresses: set<Addr>,
    hostname: Option<string>,
    name: Option<string>,
    lastProbe: Option<(int, Addr)>,
    probesSent: nat,
    pingsReceived: nat,
    pongsReceived: nat,
    lastRoundtrip: Option<(Addr, int, int)>,
    randomPeerRoundtrip: Option<(Addr, int, int)>,
    report: Option<(int, Report)>,
    lastReportDirect: Option<int>)

  function NewPeer(id: Id, now: int): Peer {
    Peer(id, now, None, {}, None, None, None, 0, 0, 0, None, None, None, None)
  }

  function ApplyAddresses(p: Peer, addrs: set<Addr>, direct: bool): Peer {
    p.(addresses := if direct then addrs else p.addresses + addrs)
  }

  /** Only a newer report, or the first one, is taken. */
  function ApplyReport(p: Peer, src: Option<(int, Report)>, direct: bool): Peer {
    if src.None? || (p.report.Some? && p.report.value.0 >= src.value.0) then p
    else if direct then p.(report := src, lastReportDirect := Some(src.value.0))
    else p.(report := src)
  }

  /** Hearsay fills a missing name and never changes one. */
  function Heard(known: Option<string>, said: Option<string>, direct: bool): Option<string> {
    if said.None? then known
    else if known.None? || (known != said && direct) then said
    else known
  }

  function ApplyHostname(p: Peer, host: Option<string>, direct: bool): Peer {
    p.(hostname := Heard(p.hostname, host, direct))
  }

  function ApplyNodeName(p: Peer, name: Option<string>, direct: bool): Peer {
    p.(name := Heard(p.name, name, direct))
  }

  function ApplyRoundtrip(p: Peer, rtt: (int, int), source: Addr, direct: bool): Peer {
    if direct then p.(lastRoundtrip := Some((source, rtt.0, rtt.1)))
    else if p.randomPeerRoundtrip.Some? && p.randomPeerRoundtrip.value.1 >= rtt.0 then p
    else p.(randomPeerRoundtrip := Some((source, rtt.0, rtt.1)))
  }

  /** Reports heard of with different times end the same in either order. */
  lemma ReportsCommute(p: Peer, a: (int, Report), b: (int, Report))
    requires a.0 != b.0
    ensures ApplyReport(ApplyReport(p, Some(a), false), Some(b), false)
         == ApplyReport(ApplyReport(p, Some(b), false), Some(a), false)
  {}

  // ---------------------------------------------------------------- timeouts

  datatype Config = Config(
    machineId: Id,
    cluster: string,
    minPingInterval: int,
    maxPingInterval: int,
    maxRoundtrip: int,
    prefailTime: int,
    failTime: int,
    removeTime: int,
    numFriends: nat,
    numPings: nat,
    retryTimes: nat)

  predicate HasFreshReport(p: Peer, c: Config, now: int) {
    && p.report.Some? && p.report.value.0 + c.minPingInterval >= now
    && p.lastProbe.Some? && p.lastProbe.value.0 + c.maxPingInterval >= now
  }

  predicate PingPrimary(p: Peer, c: Config, now: int) {
    || p.lastProbe.None?
    || p.lastProbe.value.0 + c.maxRoundtrip > now
    || (p.lastReportDirect.Some? && p.lastReportDirect.value + c.prefailTime > now)
  }

  /** Not longer ago than `limit`. */
  predicate Within(past: Option<int>, limit: int, now: int) {
    past.Some? && now - past.value <= limit
  }

  function ReportTime(p: Peer): Option<int> {
    if p.report.Some? then Some(p.report.value.0) else None
  }

  function ProbeTime(p: Peer): Option<int> {
    if p.lastProbe.Some? then Some(p.lastProbe.value.0) else None
  }

  /** The time the failure clocks count from. */
  function LastSign(p: Peer): int {
    if p.report.Some? then p.report.value.0 else p.knownSince
  }

  predicate IsFailing(p: Peer, c: Config, now: int) {
    LastSign(p) + c.failTime < now
  }

  predicate ShouldRemove(p: Peer, c: Config, now: int) {
    LastSign(p) + c.removeTime < now
  }

  /** An address `random_ping_addr` may return: the last probed one only when there is no other. */
  predicate MayProbe(p: Peer, addr: Option<Addr>) {
    if p.lastProbe.Some? then
      var others := p.addresses - {p.lastProbe.value.1};
      addr.Some? && (if others == {} then addr.value == p.lastProbe.value.1 else addr.value in others)
    else if p.addresses == {} then addr == None
    else addr.Some? && addr.value in p.addresses
  }

  // ---------------------------------------------------------------- packets

  datatype MyInfo = MyInfo(id: Id, addresses: set<Addr>, host: string, name: string, report: Report)

  /** Addresses that do not parse have been dropped. */
  datatype FriendInfo = FriendInfo(
    id: Id,
    myPrimaryAddr: Option<Addr>,
    addresses: set<Addr>,
    host: Option<string>,
    name: Option<string>,
    report: Option<(int, Report)>,
    roundtrip: Option<(int, int)>)

  datatype Packet =
    | Ping(cluster: string, me: MyInfo, now: int, friends: seq<FriendInfo>)
    | Pong(cluster: string, me: MyInfo, pingTime: int, peerTime: int, friends: seq<FriendInfo>)

  type Peers = map<Id, Peer>

  function FriendOf(p: Peer): FriendInfo {
    FriendInfo(p.id, p.primaryAddr, p.addresses, p.hostname, p.name, p.report,
               if p.lastRoundtrip.Some? then Some((p.lastRoundtrip.value.1, p.lastRoundtrip.value.2)) else None)
  }

  /** `get_friends` may name the peer: not at the excluded address, and heard of lately. */
  predicate MayName(p: Peer, exclude: Addr, c: Config, now: int) {
    exclude !in p.addresses && Within(Some(LastSign(p)), c.failTime, now)
  }

  /** A friend list `get_friends` may draw: different peers, each of which it may name. */
  ghost predicate MaySend(peers: Peers, exclude: Addr, friends: seq<FriendInfo>, c: Config, now: int) {
    && |friends| <= c.numFriends
    && (forall i, j | 0 <= i < j < |friends| :: friends[i].id != friends[j].id)
    && forall i | 0 <= i < |friends| ::
         exists id | id in peers :: friends[i] == FriendOf(peers[id]) && MayName(peers[id], exclude, c, now)
  }
}
