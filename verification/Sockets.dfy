/** The one-pass classification of sockets as passive or active (src/scan/connections.rs). */
module Sockets {
  import opened SocketTables

  /**
   What the pass knows after some sockets: those filed so far, in filing order, the addresses
   decided, and the undecided sockets by either address.
   */
  datatype Pass = Pass(
    passive: seq<Socket>, active: seq<Socket>,
    passiveAddr: set<Addr>, activeAddr: set<Addr>,
    localUnknown: map<Addr, Socket>, remoteUnknown: map<Addr, Socket>)

  const Start := Pass([], [], {}, {}, map[], map[])

  function Classify(p: Pass, sock: Socket): Pass {
    var la, ra := sock.local, sock.remote;
    if la in p.passiveAddr then p.(passive := p.passive + [sock])
    else if ra in p.activeAddr then p.(active := p.active + [sock])
    else if la in p.localUnknown then
      var oldsock := p.localUnknown[la];
      Pass(p.passive + [oldsock, sock], p.active, p.passiveAddr + {la}, p.activeAddr,
           p.localUnknown - {la}, p.remoteUnknown - {oldsock.remote})
    else if ra in p.remoteUnknown then
      var oldsock := p.remoteUnknown[ra];
      Pass(p.passive, p.active + [oldsock, sock], p.passiveAddr, p.activeAddr + {ra},
           p.localUnknown - {oldsock.local}, p.remoteUnknown - {ra})
    else if sock.state == Listen then
      p.(passive := p.passive + [sock], passiveAddr := p.passiveAddr + {la})
    else
      p.(localUnknown := p.localUnknown[la := sock], remoteUnknown := p.remoteUnknown[ra := sock])
  }

  function After(socks: seq<Socket>): Pass {
    if socks == [] then Start else Classify(After(socks[..|socks| - 1]), socks[|socks| - 1])
  }

  // ---------------------------------------------------------------- the mirrored maps

  /** Both maps hold the same sockets, each under its own address, none of them decided. */
  predicate Mirrored(p: Pass) {
    && (forall a | a in p.localUnknown ::
          && p.localUnknown[a].local == a
          && p.localUnknown[a].remote in p.remoteUnknown
          && p.remoteUnknown[p.localUnknown[a].remote] == p.localUnknown[a])
    && (forall a | a in p.remoteUnknown ::
          && p.remoteUnknown[a].remote == a
          && p.remoteUnknown[a].local in p.localUnknown
          && p.localUnknown[p.remoteUnknown[a].local] == p.remoteUnknown[a])
    && p.localUnknown.Keys !! p.passiveAddr
    && p.remoteUnknown.Keys !! p.activeAddr
  }

  /** Every socket read is filed once or waiting. */
  predicate Conserved(p: Pass, socks: seq<Socket>) {
    multiset(socks) == multiset(p.passive) + multiset(p.active) + multiset(p.remoteUnknown.Values)
  }

  lemma ValuesAdded(m: map<Addr, Socket>, a: Addr, sock: Socket)
    requires a !in m && forall b | b in m :: m[b].remote == b
    requires sock.remote == a
    ensures multiset(m[a := sock].Values) == multiset(m.Values) + multiset{sock}
  {
    var m' := m[a := sock];
    assert sock !in m.Values;
    assert m'.Values == m.Values + {sock} by {
      assert m'[a] == sock;
      forall v | v in m.Values ensures v in m'.Values {
        var b :| b in m && m[b] == v;
        assert m'[b] == v;
      }
    }
  }

  lemma ValuesRemoved(m: map<Addr, Socket>, a: Addr)
    requires a in m && forall b | b in m :: m[b].remote == b
    ensures multiset(m.Values) == multiset((m - {a}).Values) + multiset{m[a]}
  {
    var m' := m - {a};
    ValuesAdded(m', a, m[a]);
    assert m'[a := m[a]] == m;
  }

  lemma StepMirrors(p: Pass, sock: Socket)
    requires Mirrored(p)
    ensures Mirrored(Classify(p, sock))
  {}

  lemma StepConserves(p: Pass, sock: Socket, socks: seq<Socket>)
    requires Mirrored(p) && Conserved(p, socks)
    ensures Conserved(Classify(p, sock), socks + [sock])
  {
    var la, ra := sock.local, sock.remote;
    assert multiset(socks + [sock]) == multiset(socks) + multiset{sock};
    if la !in p.passiveAddr && ra !in p.activeAddr {
      if la in p.localUnknown {
        ValuesRemoved(p.remoteUnknown, p.localUnknown[la].remote);
      } else if ra in p.remoteUnknown {
        ValuesRemoved(p.remoteUnknown, ra);
      } else if sock.state != Listen {
        ValuesAdded(p.remoteUnknown, ra, sock);
      }
    }
    FiledLast(p.passive, sock);
    FiledLast(p.active, sock);
    hide Mirrored;
  }

  lemma FiledLast(filed: seq<Socket>, sock: Socket)
    ensures multiset(filed + [sock]) == multiset(filed) + multiset{sock}
    ensures forall o :: multiset(filed + [o, sock]) == multiset(filed) + multiset{o} + multiset{sock}
  {}

  lemma {:induction false} PassKeeps(socks: seq<Socket>)
    ensures Mirrored(After(socks)) && Conserved(After(socks), socks)
  {
    if socks != [] {
      hide Classify, Mirrored, Conserved;
      var n := |socks| - 1;
      PassKeeps(socks[..n]);
      StepMirrors(After(socks[..n]), socks[n]);
      StepConserves(After(socks[..n]), socks[n], socks[..n]);
      assert socks[..n] + [socks[n]] == socks;
    }
  }

  // ---------------------------------------------------------------- reading the table of sockets

  datatype Connections = Connections(
    global: Stats, byUser: map<int, Stats>, passive: Table<Passive>, active: Table<Active>)

  /** The counters and tables are those of the listed sockets. */
  ghost predicate Reports(c: Connections, socks: seq<Socket>, passive: seq<Socket>, active: seq<Socket>) {
    && Counts(c.global, socks) && FiledUsers(c.byUser, socks)
    && FiledPassive(c.passive, passive) && FiledActive(c.active, active)
  }

  /** The undecided sockets are filed as active at the end, in any order. */
  ghost predicate Settles(p: Pass, passive: seq<Socket>, active: seq<Socket>) {
    && passive == p.passive
    && p.active <= active
    && multiset(active) == multiset(p.active) + multiset(p.remoteUnknown.Values)
  }

  /** A report for the sockets: every one filed once, as passive or as active, as the pass decides. */
  ghost predicate Classified(socks: seq<Socket>, c: Connections, passive: seq<Socket>, active: seq<Socket>) {
    && Settles(After(socks), passive, active)
    && Reports(c, socks, passive, active)
    && multiset(socks) == multiset(passive) + multiset(active)
  }

  method Read(socks: seq<Socket>) returns (c: Connections)
    ensures exists passive, active :: Classified(socks, c, passive, active)
  {
    var stats, byUser := NoStats, map[];
    var passiveTable: Table<Passive>, activeTable: Table<Active> := map[], map[];
    var passiveAddr: set<Addr>, activeAddr: set<Addr> := {}, {};
    var localUnknown: map<Addr, Socket>, remoteUnknown: map<Addr, Socket> := map[], map[];
    ghost var passive: seq<Socket>, active: seq<Socket> := [], [];
    NothingFiled();
    hide Counts, FiledUsers, FiledPassive, FiledActive, FilePassive, FileActive, AddStats, AddUser, Mirrored, Conserved;
    for i := 0 to |socks|
      invariant Pass(passive, active, passiveAddr, activeAddr, localUnknown, remoteUnknown) == After(socks[..i])
      invariant Reports(Connections(stats, byUser, passiveTable, activeTable), socks[..i], passive, active)
    {
      var sock := socks[i];
      assert socks[..i + 1][..i] == socks[..i] && socks[..i] + [sock] == socks[..i + 1];
      AddStatsCounts(stats, socks[..i], sock);
      AddUserHolds(byUser, socks[..i], sock);
      PassKeeps(socks[..i]);
      OwnAddresses(After(socks[..i]));
      stats := AddStats(stats, sock);
      byUser := AddUser(byUser, sock);
      var la, ra := sock.local, sock.remote;
      if la in passiveAddr {
        passiveTable, passive := PassiveFiled(passiveTable, passive, sock, la.port);
      } else if ra in activeAddr {
        activeTable, active := ActiveFiled(activeTable, active, sock, ra.port);
      } else if la in localUnknown {
        var oldsock := localUnknown[la];
        localUnknown := localUnknown - {la};
        remoteUnknown := remoteUnknown - {oldsock.remote};
        passiveAddr := passiveAddr + {la};
        passiveTable, passive := PassiveFiled(passiveTable, passive, oldsock, la.port);
        passiveTable, passive := PassiveFiled(passiveTable, passive, sock, la.port);
      } else if ra in remoteUnknown {
        var oldsock := remoteUnknown[ra];
        remoteUnknown := remoteUnknown - {ra};
        localUnknown := localUnknown - {oldsock.local};
        activeAddr := activeAddr + {ra};
        activeTable, active := ActiveFiled(activeTable, active, oldsock, ra.port);
        activeTable, active := ActiveFiled(activeTable, active, sock, ra.port);
      } else if sock.state == Listen {
        passiveAddr := passiveAddr + {la};
        passiveTable, passive := PassiveFiled(passiveTable, passive, sock, la.port);
      } else {
        localUnknown := localUnknown[la := sock];
        remoteUnknown := remoteUnknown[ra := sock];
      }
    }
    assert socks[..|socks|] == socks;
    PassKeeps(socks);
    OwnAddresses(After(socks));
    SettledConserves(After(socks), socks);
    activeTable, active := FileRest(activeTable, active, remoteUnknown);
    c := Connections(stats, byUser, passiveTable, activeTable);
    assert Classified(socks, c, passive, active);
  }

  lemma OwnAddresses(p: Pass)
    requires Mirrored(p)
    ensures forall a | a in p.localUnknown :: p.localUnknown[a].local == a
    ensures forall a | a in p.remoteUnknown :: p.remoteUnknown[a].remote == a
  {}

  lemma SettledConserves(p: Pass, socks: seq<Socket>)
    requires Conserved(p, socks)
    ensures multiset(socks) == multiset(p.passive) + (multiset(p.active) + multiset(p.remoteUnknown.Values))
  {}

  method PassiveFiled(table: Table<Passive>, ghost filed: seq<Socket>, sock: Socket, port: int)
    returns (table': Table<Passive>, ghost filed': seq<Socket>)
    requires FiledPassive(table, filed) && port == sock.local.port
    ensures filed' == filed + [sock] && FiledPassive(table', filed')
  {
    table' := FilePassive(table, sock, port);
    filed' := filed + [sock];
    FilePassiveHolds(table, filed, sock);
  }

  method ActiveFiled(table: Table<Active>, ghost filed: seq<Socket>, sock: Socket, port: int)
    returns (table': Table<Active>, ghost filed': seq<Socket>)
    requires FiledActive(table, filed) && port == sock.remote.port
    ensures filed' == filed + [sock] && FiledActive(table', filed')
  {
    table' := FileActive(table, sock, port);
    filed' := filed + [sock];
    FileActiveHolds(table, filed, sock);
  }

  /** What is still unknown counts as active; the map is drained in no particular order. */
  method FileRest(table: Table<Active>, ghost filed: seq<Socket>, unknown: map<Addr, Socket>)
    returns (table': Table<Active>, ghost filed': seq<Socket>)
    requires FiledActive(table, filed)
    requires forall a | a in unknown :: unknown[a].remote == a
    ensures FiledActive(table', filed') && filed <= filed'
    ensures multiset(filed') == multiset(filed) + multiset(unknown.Values)
  {
    hide FiledActive;
    table', filed' := table, filed;
    var rest := unknown;
    while rest != map[]
      invariant FiledActive(table', filed') && filed <= filed'
      invariant forall a | a in rest :: rest[a].remote == a
      invariant multiset(filed') + multiset(rest.Values) == multiset(filed) + multiset(unknown.Values)
      decreases |rest|
    {
      var a :| a in rest;
      var sock := rest[a];
      ValuesRemoved(rest, a);
      ghost var before := filed';
      table', filed' := ActiveFiled(table', filed', sock, sock.remote.port);
      assert multiset(filed') == multiset(before) + multiset{sock};
      rest := rest - {a};
    }
  }
}
