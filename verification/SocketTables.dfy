/** Sockets, their counters and the tables they are filed in (src/scan/connections.rs). */
module SocketTables {
  import opened Wrappers

  const MAX_CONNECTION_DETAILS: nat := 1000

  datatype SockState =
    | Unknown | Established | SynSent | SynRecv | FinWait1 | FinWait2
    | TimeWait | Close | CloseWait | LastAck | Listen | Closing

  datatype Addr = Addr(ip: int, port: int)

  datatype Socket = Socket(local: Addr, remote: Addr, state: SockState, tx: nat, rx: nat, uid: int)

  datatype Stats = Stats(byState: map<SockState, nat>, rx: nat, tx: nat)

  datatype Passive = Passive(stats: Stats, listeners: seq<Socket>, clients: Option<seq<Socket>>)

  datatype Active = Active(stats: Stats, connections: Option<seq<Socket>>)

  const NoStats := Stats(map[], 0, 0)
  const NoPassive := Passive(NoStats, [], Some([]))
  const NoActive := Active(NoStats, Some([]))

  function CountIn(s: Stats, st: SockState): nat {
    if st in s.byState then s.byState[st] else 0
  }

  function AddStats(s: Stats, sock: Socket): Stats {
    Stats(s.byState[sock.state := CountIn(s, sock.state) + 1], s.rx + sock.rx, s.tx + sock.tx)
  }

  /** The list of details goes for good once it has grown beyond the limit. */
  function AddDetail(details: Option<seq<Socket>>, sock: Socket): Option<seq<Socket>> {
    match details
    case None => None
    case Some(l) => if |l| + 1 > MAX_CONNECTION_DETAILS then None else Some(l + [sock])
  }

  function AddPassive(p: Passive, sock: Socket): Passive {
    if sock.state == Listen then p.(listeners := p.listeners + [sock])
    else Passive(AddStats(p.stats, sock), p.listeners, AddDetail(p.clients, sock))
  }

  function AddActive(a: Active, sock: Socket): Active {
    Active(AddStats(a.stats, sock), AddDetail(a.connections, sock))
  }

  type Table<V> = map<int, map<int, V>>

  function CellOf<V>(t: Table<V>, uid: int, port: int, none: V): V {
    if uid in t && port in t[uid] then t[uid][port] else none
  }

  /** `entry(uid).or_insert_with(..).entry(port).or_insert_with(..)`, then the new value. */
  function Put<V>(t: Table<V>, uid: int, port: int, v: V): Table<V> {
    t[uid := (if uid in t then t[uid] else map[])[port := v]]
  }

  function FilePassive(t: Table<Passive>, sock: Socket, port: int): Table<Passive> {
    Put(t, sock.uid, port, AddPassive(CellOf(t, sock.uid, port, NoPassive), sock))
  }

  function FileActive(t: Table<Active>, sock: Socket, port: int): Table<Active> {
    Put(t, sock.uid, port, AddActive(CellOf(t, sock.uid, port, NoActive), sock))
  }

  // ---------------------------------------------------------------- what a table holds

  function Filter(socks: seq<Socket>, p: Socket -> bool): seq<Socket> {
    if socks == [] then []
    else Filter(socks[..|socks| - 1], p) + (if p(socks[|socks| - 1]) then [socks[|socks| - 1]] else [])
  }

  /** The sum of a weight over a list of sockets. */
  function Weigh(socks: seq<Socket>, w: Socket -> nat): nat {
    if socks == [] then 0 else Weigh(socks[..|socks| - 1], w) + w(socks[|socks| - 1])
  }

  function InState(st: SockState): Socket -> nat {
    (s: Socket) => if s.state == st then 1 else 0
  }

  const Tx: Socket -> nat := (s: Socket) => s.tx
  const Rx: Socket -> nat := (s: Socket) => s.rx

  /** Counters that are right for a list of sockets. */
  ghost predicate Counts(s: Stats, socks: seq<Socket>) {
    && (forall st :: CountIn(s, st) == Weigh(socks, InState(st)))
    && s.tx == Weigh(socks, Tx) && s.rx == Weigh(socks, Rx)
  }

  function Details(socks: seq<Socket>): Option<seq<Socket>> {
    if |socks| <= MAX_CONNECTION_DETAILS then Some(socks) else None
  }

  function Listening(socks: seq<Socket>): seq<Socket> {
    Filter(socks, (s: Socket) => s.state == Listen)
  }

  function Clients(socks: seq<Socket>): seq<Socket> {
    Filter(socks, (s: Socket) => s.state != Listen)
  }

  /** A passive cell: listeners apart, the others counted and, up to the limit, kept. */
  ghost predicate HoldsPassive(p: Passive, socks: seq<Socket>) {
    && p.listeners == Listening(socks)
    && Counts(p.stats, Clients(socks))
    && p.clients == Details(Clients(socks))
  }

  ghost predicate HoldsActive(a: Active, socks: seq<Socket>) {
    Counts(a.stats, socks) && a.connections == Details(socks)
  }

  function AtLocal(socks: seq<Socket>, uid: int, port: int): seq<Socket> {
    Filter(socks, (s: Socket) => s.uid == uid && s.local.port == port)
  }

  function AtRemote(socks: seq<Socket>, uid: int, port: int): seq<Socket> {
    Filter(socks, (s: Socket) => s.uid == uid && s.remote.port == port)
  }

  /** Cell by cell: exactly the sockets of that user and local port; no cell without sockets. */
  ghost predicate FiledPassive(t: Table<Passive>, socks: seq<Socket>) {
    forall uid, port ::
      && (uid in t && port in t[uid] <==> AtLocal(socks, uid, port) != [])
      && HoldsPassive(CellOf(t, uid, port, NoPassive), AtLocal(socks, uid, port))
  }

  ghost predicate FiledActive(t: Table<Active>, socks: seq<Socket>) {
    forall uid, port ::
      && (uid in t && port in t[uid] <==> AtRemote(socks, uid, port) != [])
      && HoldsActive(CellOf(t, uid, port, NoActive), AtRemote(socks, uid, port))
  }

  function OfUser(socks: seq<Socket>, uid: int): seq<Socket> {
    Filter(socks, (s: Socket) => s.uid == uid)
  }

  ghost predicate FiledUsers(t: map<int, Stats>, socks: seq<Socket>) {
    forall uid ::
      && (uid in t <==> OfUser(socks, uid) != [])
      && Counts(if uid in t then t[uid] else NoStats, OfUser(socks, uid))
  }

  // ---------------------------------------------------------------- adding one socket

  lemma FilterLast(socks: seq<Socket>, sock: Socket, p: Socket -> bool)
    ensures Filter(socks + [sock], p) == if p(sock) then Filter(socks, p) + [sock] else Filter(socks, p)
  {
    assert (socks + [sock])[..|socks|] == socks;
  }

  lemma WeighLast(socks: seq<Socket>, sock: Socket, w: Socket -> nat)
    ensures Weigh(socks + [sock], w) == Weigh(socks, w) + w(sock)
  {
    assert (socks + [sock])[..|socks|] == socks;
  }

  lemma AddStatsCounts(s: Stats, socks: seq<Socket>, sock: Socket)
    requires Counts(s, socks)
    ensures Counts(AddStats(s, sock), socks + [sock])
  {
    forall st ensures CountIn(AddStats(s, sock), st) == Weigh(socks + [sock], InState(st)) {
      WeighLast(socks, sock, InState(st));
    }
    WeighLast(socks, sock, Tx);
    WeighLast(socks, sock, Rx);
  }

  lemma AddPassiveHolds(p: Passive, socks: seq<Socket>, sock: Socket)
    requires HoldsPassive(p, socks)
    ensures HoldsPassive(AddPassive(p, sock), socks + [sock])
  {
    FilterLast(socks, sock, (s: Socket) => s.state == Listen);
    FilterLast(socks, sock, (s: Socket) => s.state != Listen);
    if sock.state != Listen {
      AddStatsCounts(p.stats, Clients(socks), sock);
    }
    hide Counts, AddStats, Filter;
  }

  lemma AddActiveHolds(a: Active, socks: seq<Socket>, sock: Socket)
    requires HoldsActive(a, socks)
    ensures HoldsActive(AddActive(a, sock), socks + [sock])
  {
    AddStatsCounts(a.stats, socks, sock);
  }

  lemma AtLocalLast(socks: seq<Socket>, sock: Socket, uid: int, port: int)
    ensures AtLocal(socks + [sock], uid, port) ==
      if sock.uid == uid && sock.local.port == port then AtLocal(socks, uid, port) + [sock]
      else AtLocal(socks, uid, port)
  {
    FilterLast(socks, sock, (s: Socket) => s.uid == uid && s.local.port == port);
  }

  lemma AtRemoteLast(socks: seq<Socket>, sock: Socket, uid: int, port: int)
    ensures AtRemote(socks + [sock], uid, port) ==
      if sock.uid == uid && sock.remote.port == port then AtRemote(socks, uid, port) + [sock]
      else AtRemote(socks, uid, port)
  {
    FilterLast(socks, sock, (s: Socket) => s.uid == uid && s.remote.port == port);
  }

  lemma FilePassiveHolds(t: Table<Passive>, socks: seq<Socket>, sock: Socket)
    requires FiledPassive(t, socks)
    ensures FiledPassive(FilePassive(t, sock, sock.local.port), socks + [sock])
  {
    hide HoldsPassive, AddPassive, AtLocal;
    var t', port0 := FilePassive(t, sock, sock.local.port), sock.local.port;
    AddPassiveHolds(CellOf(t, sock.uid, port0, NoPassive), AtLocal(socks, sock.uid, port0), sock);
    forall uid, port
      ensures uid in t' && port in t'[uid] <==> AtLocal(socks + [sock], uid, port) != []
      ensures HoldsPassive(CellOf(t', uid, port, NoPassive), AtLocal(socks + [sock], uid, port))
    {
      AtLocalLast(socks, sock, uid, port);
      assert uid in t && port in t[uid] <==> AtLocal(socks, uid, port) != [];
    }
  }

  lemma FileActiveHolds(t: Table<Active>, socks: seq<Socket>, sock: Socket)
    requires FiledActive(t, socks)
    ensures FiledActive(FileActive(t, sock, sock.remote.port), socks + [sock])
  {
    hide HoldsActive, AddActive, AtRemote;
    var t', port0 := FileActive(t, sock, sock.remote.port), sock.remote.port;
    AddActiveHolds(CellOf(t, sock.uid, port0, NoActive), AtRemote(socks, sock.uid, port0), sock);
    forall uid, port
      ensures uid in t' && port in t'[uid] <==> AtRemote(socks + [sock], uid, port) != []
      ensures HoldsActive(CellOf(t', uid, port, NoActive), AtRemote(socks + [sock], uid, port))
    {
      AtRemoteLast(socks, sock, uid, port);
      assert uid in t && port in t[uid] <==> AtRemote(socks, uid, port) != [];
    }
  }

  function AddUser(t: map<int, Stats>, sock: Socket): map<int, Stats> {
    t[sock.uid := AddStats(if sock.uid in t then t[sock.uid] else NoStats, sock)]
  }

  lemma AddUserHolds(t: map<int, Stats>, socks: seq<Socket>, sock: Socket)
    requires FiledUsers(t, socks)
    ensures FiledUsers(AddUser(t, sock), socks + [sock])
  {
    hide Counts, AddStats, Filter;
    var t' := AddUser(t, sock);
    AddStatsCounts(if sock.uid in t then t[sock.uid] else NoStats, OfUser(socks, sock.uid), sock);
    forall uid
      ensures uid in t' <==> OfUser(socks + [sock], uid) != []
      ensures Counts(if uid in t' then t'[uid] else NoStats, OfUser(socks + [sock], uid))
    {
      FilterLast(socks, sock, (s: Socket) => s.uid == uid);
      assert uid in t <==> OfUser(socks, uid) != [];
    }
  }

  lemma NothingFiled()
    ensures FiledPassive(map[], []) && FiledActive(map[], []) && FiledUsers(map[], []) && Counts(NoStats, [])
  {}
}
