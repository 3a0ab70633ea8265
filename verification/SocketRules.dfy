/**
 What the one-pass classification amounts to, and the sums the report promises
 (src/scan/connections.rs).
 */
module SocketRules {
  import opened Wrappers
  import opened SocketTables
  import opened Sockets

  // ---------------------------------------------------------------- what the addresses remember

  predicate SomeLocal(socks: seq<Socket>, a: Addr) {
    exists t | t in socks :: t.local == a
  }

  predicate SomeRemote(socks: seq<Socket>, a: Addr) {
    exists t | t in socks :: t.remote == a
  }

  /** An address is decided exactly when a socket has been filed for it. */
  ghost predicate AddressesFiled(p: Pass) {
    && (forall a :: a in p.passiveAddr <==> SomeLocal(p.passive, a))
    && (forall a :: a in p.activeAddr <==> SomeRemote(p.active, a))
  }

  /** Sockets filed as passive at one local address. */
  lemma PassiveFiles(filed: seq<Socket>, known: set<Addr>, more: seq<Socket>, a: Addr)
    requires forall b :: b in known <==> SomeLocal(filed, b)
    requires more != [] && forall t | t in more :: t.local == a
    ensures forall b :: b in known + {a} <==> SomeLocal(filed + more, b)
  {
    assert more[0] in more;
    assert forall t :: t in filed + more <==> t in filed || t in more;
  }

  lemma ActiveFiles(filed: seq<Socket>, known: set<Addr>, more: seq<Socket>, a: Addr)
    requires forall b :: b in known <==> SomeRemote(filed, b)
    requires more != [] && forall t | t in more :: t.remote == a
    ensures forall b :: b in known + {a} <==> SomeRemote(filed + more, b)
  {
    assert more[0] in more;
    assert forall t :: t in filed + more <==> t in filed || t in more;
  }

  lemma StepFiles(p: Pass, sock: Socket)
    requires Mirrored(p) && AddressesFiled(p)
    ensures AddressesFiled(Classify(p, sock))
  {
    OwnAddresses(p);
    hide SomeLocal, SomeRemote, Mirrored;
    var la, ra := sock.local, sock.remote;
    if la in p.passiveAddr {
      PassiveFiles(p.passive, p.passiveAddr, [sock], la);
      assert p.passiveAddr + {la} == p.passiveAddr;
    } else if ra in p.activeAddr {
      ActiveFiles(p.active, p.activeAddr, [sock], ra);
      assert p.activeAddr + {ra} == p.activeAddr;
    } else if la in p.localUnknown {
      PassiveFiles(p.passive, p.passiveAddr, [p.localUnknown[la], sock], la);
    } else if ra in p.remoteUnknown {
      ActiveFiles(p.active, p.activeAddr, [p.remoteUnknown[ra], sock], ra);
    } else if sock.state == Listen {
      PassiveFiles(p.passive, p.passiveAddr, [sock], la);
    }
  }

  lemma {:induction false} PassFiles(socks: seq<Socket>)
    ensures AddressesFiled(After(socks))
  {
    if socks != [] {
      hide Classify, Mirrored, AddressesFiled;
      var n := |socks| - 1;
      PassFiles(socks[..n]);
      PassKeeps(socks[..n]);
      StepFiles(After(socks[..n]), socks[n]);
    }
  }

  /** The sockets not decided after some lines. */
  function Waiting(p: Pass): set<Socket> {
    p.remoteUnknown.Values
  }

  /**
   After any lines a listening socket is filed as active exactly when none of them was filed as
   passive at its local address, and one of them with its remote address was filed as active, or is
   waiting while none is waiting at its local address.
   */
  lemma ListenerFiled(socks: seq<Socket>, sock: Socket)
    requires sock.state == Listen
    ensures var p := After(socks);
      After(socks + [sock]).active != p.active <==>
        && !SomeLocal(p.passive, sock.local)
        && (SomeRemote(p.active, sock.remote)
            || ((exists t | t in Waiting(p) :: t.remote == sock.remote)
                && forall t | t in Waiting(p) :: t.local != sock.local))
    ensures var p, p' := After(socks), After(socks + [sock]);
      if p'.active != p.active then |p'.active| > 0 && p'.active[|p'.active| - 1] == sock
      else |p'.passive| > 0 && p'.passive[|p'.passive| - 1] == sock
  {
    var p := After(socks);
    PassKeeps(socks);
    PassFiles(socks);
    AfterMore(socks, sock);
    UnknownAreWaiting(p, sock.local, sock.remote);
    hide Mirrored, After, SomeLocal, SomeRemote, Conserved;
    ListenerStep(p, sock);
  }

  lemma ListenerStep(p: Pass, sock: Socket)
    requires sock.state == Listen
    ensures Classify(p, sock).active != p.active <==>
      && sock.local !in p.passiveAddr
      && (sock.remote in p.activeAddr || (sock.local !in p.localUnknown && sock.remote in p.remoteUnknown))
    ensures var p' := Classify(p, sock);
      if p'.active != p.active then |p'.active| > 0 && p'.active[|p'.active| - 1] == sock
      else |p'.passive| > 0 && p'.passive[|p'.passive| - 1] == sock
  {
    var p' := Classify(p, sock);
    assert p'.active == p.active || |p'.active| > |p.active|;
  }

  lemma UnknownAreWaiting(p: Pass, local: Addr, remote: Addr)
    requires Mirrored(p)
    ensures remote in p.remoteUnknown <==> exists t | t in Waiting(p) :: t.remote == remote
    ensures local in p.localUnknown <==> exists t | t in Waiting(p) :: t.local == local
  {
    if local in p.localUnknown {
      var t := p.localUnknown[local];
      assert p.remoteUnknown[t.remote] == t;
      assert t in Waiting(p);
    }
    if remote in p.remoteUnknown {
      assert p.remoteUnknown[remote] in Waiting(p);
    }
  }

  lemma AfterMore(seen: seq<Socket>, sock: Socket)
    ensures After(seen + [sock]) == Classify(After(seen), sock)
  {
    assert (seen + [sock])[..|seen|] == seen;
  }

  /** One closing socket with the listeners' empty remote address is enough. */
  lemma ListenerCanBeActive(local: Addr, other: Addr, none: Addr, uid: int)
    requires local != other
    ensures var closing := Socket(other, none, Close, 0, 0, uid);
      var listener := Socket(local, none, Listen, 0, 0, uid);
      After([closing, listener]).active == [closing, listener] && After([listener, closing]).passive == [listener]
  {
    var closing, listener := Socket(other, none, Close, 0, 0, uid), Socket(local, none, Listen, 0, 0, uid);
    AfterMore([], closing);
    AfterMore([], listener);
    AfterMore([closing], listener);
    AfterMore([listener], closing);
    assert [] + [closing] == [closing] && [] + [listener] == [listener];
  }

  // ---------------------------------------------------------------- the rule, free of order

  /** Another line has the same local address. */
  predicate SharesLocal(socks: seq<Socket>, s: Socket) {
    exists t | t in socks :: t.local == s.local && (t != s || multiset(socks)[s] > 1)
  }

  predicate AcceptedHere(socks: seq<Socket>, s: Socket) {
    s.state == Listen || SharesLocal(socks, s)
  }

  /** No line that does not listen has the remote address of an accepted socket elsewhere. */
  predicate Coherent(socks: seq<Socket>) {
    forall s, t | s in socks && t in socks && AcceptedHere(socks, s) && t.state != Listen && t.remote == s.remote ::
      t.local == s.local
  }

  /** Filed, or left to be filed as active, just as the rule says. */
  ghost predicate ByRule(all: seq<Socket>, p: Pass) {
    && (forall s | s in p.passive :: AcceptedHere(all, s))
    && (forall s | s in p.active :: !AcceptedHere(all, s))
  }

  ghost predicate RuleHolds(socks: seq<Socket>) {
    ByRule(socks, After(socks)) && forall s | s in Waiting(After(socks)) :: !AcceptedHere(socks, s)
  }

  /** Everything filed or waiting has been seen, and listeners do not wait. */
  ghost predicate Seen(seen: seq<Socket>, p: Pass) {
    && (forall s | s in p.passive || s in p.active :: s in seen)
    && (forall a | a in p.localUnknown :: p.localUnknown[a] in seen && p.localUnknown[a].state != Listen)
  }

  lemma SharedLine(all: seq<Socket>, s: Socket, t: Socket)
    requires s in all && t in all && s.local == t.local && (s != t || multiset(all)[s] > 1)
    ensures AcceptedHere(all, s) && AcceptedHere(all, t)
  {
    assert SharesLocal(all, s) && SharesLocal(all, t);
  }

  /** A socket seen before comes twice. */
  lemma SeenBefore(all: seq<Socket>, seen: seq<Socket>, sock: Socket)
    requires seen + [sock] <= all
    ensures sock in all && (sock in seen ==> multiset(all)[sock] > 1)
    ensures forall s | s in seen :: s in all
  {
    var rest := all[|seen| + 1..];
    assert all == seen + [sock] + rest;
    assert multiset(all) == multiset(seen) + multiset{sock} + multiset(rest);
    assert sock in seen <==> sock in multiset(seen);
  }

  lemma ByRuleMore(all: seq<Socket>, seen: seq<Socket>, p: Pass, sock: Socket)
    requires Coherent(all) && seen + [sock] <= all
    requires Mirrored(p) && AddressesFiled(p) && Seen(seen, p) && ByRule(all, p)
    ensures ByRule(all, Classify(p, sock))
  {
    Evidence(all, seen, p, sock);
    ListenIsAccepted(all, sock);
    hide Coherent, AcceptedHere, AddressesFiled, Mirrored, Seen;
  }

  lemma SeenMore(seen: seq<Socket>, p: Pass, sock: Socket)
    requires Mirrored(p) && Seen(seen, p)
    ensures Seen(seen + [sock], Classify(p, sock))
  {
    assert forall s :: s in seen + [sock] <==> s in seen || s == sock;
    if sock.remote in p.remoteUnknown {
      assert p.localUnknown[p.remoteUnknown[sock.remote].local] == p.remoteUnknown[sock.remote];
    }
    hide Mirrored;
  }

  lemma ListenIsAccepted(all: seq<Socket>, s: Socket)
    ensures s.state == Listen ==> AcceptedHere(all, s)
  {}

  /** What each branch may conclude. */
  lemma Evidence(all: seq<Socket>, seen: seq<Socket>, p: Pass, sock: Socket)
    requires Coherent(all) && seen + [sock] <= all
    requires Mirrored(p) && AddressesFiled(p) && Seen(seen, p) && ByRule(all, p)
    ensures sock.local in p.passiveAddr ==> AcceptedHere(all, sock)
    ensures sock.remote in p.activeAddr ==> !AcceptedHere(all, sock)
    ensures sock.local in p.localUnknown ==>
      AcceptedHere(all, sock) && AcceptedHere(all, p.localUnknown[sock.local]) && p.localUnknown[sock.local] in seen
    ensures sock.local !in p.localUnknown && sock.remote in p.remoteUnknown ==>
      && !AcceptedHere(all, sock) && !AcceptedHere(all, p.remoteUnknown[sock.remote])
      && p.remoteUnknown[sock.remote] in seen
  {
    var la, ra := sock.local, sock.remote;
    SeenBefore(all, seen, sock);
    hide AcceptedHere;
    if la in p.passiveAddr {
      var t :| t in p.passive && t.local == la;
      SharedLine(all, sock, t);
    }
    if ra in p.activeAddr {
      var t :| t in p.active && t.remote == ra;
      ListenIsAccepted(all, t);
      if AcceptedHere(all, sock) {
        SharedLine(all, sock, t);
      }
    }
    if la in p.localUnknown {
      SharedLine(all, sock, p.localUnknown[la]);
    } else if ra in p.remoteUnknown {
      var t := p.remoteUnknown[ra];
      assert p.localUnknown[t.local] == t;
      ListenIsAccepted(all, sock);
    }
  }

  /** One more line keeps what the rule says of those read. */
  lemma LineByRule(all: seq<Socket>, seen: seq<Socket>, sock: Socket)
    requires Coherent(all) && seen + [sock] <= all
    requires ByRule(all, After(seen)) && Seen(seen, After(seen))
    ensures ByRule(all, After(seen + [sock])) && Seen(seen + [sock], After(seen + [sock]))
  {
    hide *;
    PassKeeps(seen);
    PassFiles(seen);
    AfterMore(seen, sock);
    ByRuleMore(all, seen, After(seen), sock);
    SeenMore(seen, After(seen), sock);
  }

  lemma NothingByRule(all: seq<Socket>)
    ensures ByRule(all, After([])) && Seen([], After([]))
  {}

  lemma {:induction false} PrefixByRule(all: seq<Socket>, n: nat)
    requires Coherent(all) && n <= |all|
    ensures ByRule(all, After(all[..n])) && Seen(all[..n], After(all[..n]))
  {
    hide *;
    if n == 0 {
      NothingByRule(all);
      assert all[..n] == [];
    } else {
      PrefixByRule(all, n - 1);
      assert all[..n - 1] + [all[n - 1]] == all[..n] <= all;
      LineByRule(all, all[..n - 1], all[n - 1]);
    }
  }

  lemma WaitingByRule(all: seq<Socket>, p: Pass, s: Socket)
    requires Mirrored(p) && Conserved(p, all) && AddressesFiled(p) && Seen(all, p) && ByRule(all, p)
    requires s in Waiting(p)
    ensures !AcceptedHere(all, s)
  {
    var a :| a in p.remoteUnknown && p.remoteUnknown[a] == s;
    assert p.localUnknown[s.local] == s && s.local !in p.passiveAddr;
    if SharesLocal(all, s) {
      var t :| t in all && t.local == s.local && (t != s || multiset(all)[s] > 1);
      WhereIs(all, p, t);
      SharedLine(all, s, t);
      assert false;
    }
  }

  /** A line is filed, or waits; one that waits is filed too if it comes twice. */
  lemma WhereIs(all: seq<Socket>, p: Pass, t: Socket)
    requires Conserved(p, all) && t in all
    ensures t in p.passive || t in p.active || t in Waiting(p)
    ensures multiset(all)[t] > 1 ==> t in p.passive || t in p.active
  {
    assert t in multiset(all);
    assert multiset(p.remoteUnknown.Values)[t] <= 1;
  }

  lemma CoherentFollowsRule(socks: seq<Socket>)
    requires Coherent(socks)
    ensures RuleHolds(socks)
  {
    PrefixByRule(socks, |socks|);
    PassKeeps(socks);
    PassFiles(socks);
    assert socks[..|socks|] == socks;
    hide Coherent, After, Mirrored, Conserved, AddressesFiled, Seen, ByRule, AcceptedHere, Waiting;
    forall s | s in Waiting(After(socks)) ensures !AcceptedHere(socks, s) {
      WaitingByRule(socks, After(socks), s);
    }
  }

  /** The evidence does not depend on the order of the lines. */
  lemma AcceptedAnyOrder(a: seq<Socket>, b: seq<Socket>, s: Socket)
    requires multiset(a) == multiset(b)
    ensures AcceptedHere(a, s) <==> AcceptedHere(b, s)
    ensures s in a <==> s in b
  {
    forall t ensures t in a <==> t in b {
      assert t in multiset(a) <==> t in multiset(b);
    }
  }

  lemma CoherentAnyOrder(a: seq<Socket>, b: seq<Socket>)
    requires multiset(a) == multiset(b) && Coherent(a)
    ensures Coherent(b)
  {
    hide AcceptedHere;
    forall s ensures (AcceptedHere(a, s) <==> AcceptedHere(b, s)) && (s in a <==> s in b) {
      AcceptedAnyOrder(a, b, s);
    }
  }

  lemma {:induction false} ActiveStays(socks: seq<Socket>, n: nat)
    requires n <= |socks|
    ensures After(socks[..n]).active <= After(socks).active
    decreases |socks|
  {
    if n == |socks| {
      assert socks[..n] == socks;
    } else {
      ActiveStays(socks[..|socks| - 1], n);
      assert socks[..|socks| - 1][..n] == socks[..n];
    }
  }

  /** Two lines that clash, the one that does not listen first: both are filed as active. */
  lemma ClashFirst(s: Socket, t: Socket, rest: seq<Socket>)
    requires t.state != Listen && t.remote == s.remote && t.local != s.local
    ensures s in After([t, s] + rest).active
  {
    var q := [t, s] + rest;
    assert q[..2] == [t, s] && [t, s][..1] == [t] && [t][..0] == [];
    assert After([t]) == Classify(Start, t);
    assert After([t, s]).active == [t, s];
    ActiveStays(q, 2);
    var active := After(q).active;
    assert active[1] == s;
  }

  lemma TakeOut(socks: seq<Socket>, s: Socket) returns (rest: seq<Socket>)
    requires s in socks
    ensures multiset(socks) == multiset(rest) + multiset{s}
  {
    var i :| 0 <= i < |socks| && socks[i] == s;
    rest := socks[..i] + socks[i + 1..];
    assert socks == socks[..i] + [s] + socks[i + 1..];
  }

  /** Some order of the lines that starts with two given ones. */
  lemma BringForward(socks: seq<Socket>, s: Socket, t: Socket) returns (rest: seq<Socket>)
    requires s in socks && t in socks && s != t
    ensures multiset([t, s] + rest) == multiset(socks)
  {
    var others := TakeOut(socks, t);
    assert s in multiset(socks);
    rest := TakeOut(others, s);
    assert multiset([t, s] + rest) == multiset{t} + multiset{s} + multiset(rest);
  }

  /**
   A socket is filed as passive exactly when it listens or shares its local address, whatever the
   order of the lines, if and only if no line that does not listen has the remote address of such a
   socket at another local address.
   */
  lemma RuleIffCoherent(socks: seq<Socket>)
    ensures (forall q | multiset(q) == multiset(socks) :: RuleHolds(q)) <==> Coherent(socks)
  {
    if Coherent(socks) {
      forall q | multiset(q) == multiset(socks) ensures RuleHolds(q) {
        CoherentAnyOrder(socks, q);
        CoherentFollowsRule(q);
      }
    } else {
      var s, t :| s in socks && t in socks && AcceptedHere(socks, s)
                  && t.state != Listen && t.remote == s.remote && t.local != s.local;
      var rest := BringForward(socks, s, t);
      ClashFirst(s, t, rest);
      AcceptedAnyOrder(socks, [t, s] + rest, s);
      assert !RuleHolds([t, s] + rest);
    }
  }

  /** So the report of coherent lines files every socket by the rule. */
  lemma ClassifiedByRule(socks: seq<Socket>, c: Connections, passive: seq<Socket>, active: seq<Socket>)
    requires Coherent(socks) && Classified(socks, c, passive, active)
    ensures forall s :: s in passive <==> s in socks && AcceptedHere(socks, s)
    ensures forall s :: s in active <==> s in socks && !AcceptedHere(socks, s)
  {
    CoherentFollowsRule(socks);
    var p := After(socks);
    hide AcceptedHere, Coherent, After, Reports;
    forall s ensures s in active <==> s in p.active || s in Waiting(p) {
      assert s in multiset(active) <==> s in multiset(p.active) || s in multiset(p.remoteUnknown.Values);
    }
    forall s ensures s in socks <==> s in passive || s in active {
      assert s in multiset(socks) <==> s in multiset(passive) || s in multiset(active);
    }
  }

  // ---------------------------------------------------------------- sums over the tables

  ghost function SumMap<K>(m: map<K, nat>): nat {
    if m == map[] then 0 else
      var k :| k in m;
      m[k] + SumMap(m - {k})
  }

  lemma {:induction false} SumMapRemove<K>(m: map<K, nat>, k: K)
    requires k in m
    ensures SumMap(m) == m[k] + SumMap(m - {k})
    decreases |m|
  {
    var j :| j in m && SumMap(m) == m[j] + SumMap(m - {j});
    if j != k {
      SumMapRemove(m - {j}, k);
      SumMapRemove(m - {k}, j);
      assert m - {j} - {k} == m - {k} - {j};
    }
  }

  /** Weights of the parts of a list, one part a key. */
  ghost function Parts(socks: seq<Socket>, keys: set<int>, part: Socket -> int, w: Socket -> nat): map<int, nat> {
    map k | k in keys :: Weigh(Filter(socks, (s: Socket) => part(s) == k), w)
  }

  lemma {:induction false} SumZero<K>(m: map<K, nat>)
    requires forall k | k in m :: m[k] == 0
    ensures SumMap(m) == 0
    decreases |m|
  {
    if m != map[] {
      var j :| j in m && SumMap(m) == m[j] + SumMap(m - {j});
      SumZero(m - {j});
    }
  }

  /** The parts add up to the whole. */
  lemma {:induction false} PartsAddUp(socks: seq<Socket>, keys: set<int>, part: Socket -> int, w: Socket -> nat)
    requires forall i | 0 <= i < |socks| :: part(socks[i]) in keys
    ensures SumMap(Parts(socks, keys, part, w)) == Weigh(socks, w)
  {
    var m := Parts(socks, keys, part, w);
    if socks == [] {
      SumZero(m);
    } else {
      var n, sock := |socks| - 1, socks[|socks| - 1];
      var before := socks[..n];
      assert before + [sock] == socks;
      PartsAddUp(before, keys, part, w);
      WeighLast(before, sock, w);
      var m0, k0 := Parts(before, keys, part, w), part(sock);
      forall k | k in keys ensures m[k] == m0[k] + if k == k0 then w(sock) else 0 {
        PartLast(before, sock, part, k, w);
      }
      SumMapRemove(m, k0);
      SumMapRemove(m0, k0);
      assert m - {k0} == m0 - {k0};
    }
  }

  lemma PartLast(before: seq<Socket>, sock: Socket, part: Socket -> int, k: int, w: Socket -> nat)
    ensures Weigh(Filter(before + [sock], (s: Socket) => part(s) == k), w)
         == Weigh(Filter(before, (s: Socket) => part(s) == k), w) + if part(sock) == k then w(sock) else 0
  {
    FilterLast(before, sock, (s: Socket) => part(s) == k);
    WeighLast(Filter(before, (s: Socket) => part(s) == k), sock, w);
  }

  lemma {:induction false} FilterTwice(socks: seq<Socket>, p: Socket -> bool, q: Socket -> bool, pq: Socket -> bool)
    requires forall s :: pq(s) <==> p(s) && q(s)
    ensures Filter(Filter(socks, p), q) == Filter(socks, pq)
  {
    if socks != [] {
      var n := |socks| - 1;
      FilterTwice(socks[..n], p, q, pq);
      assert socks[..n] + [socks[n]] == socks;
      FilterLast(socks[..n], socks[n], p);
      FilterLast(socks[..n], socks[n], pq);
      FilterLast(Filter(socks[..n], p), socks[n], q);
    }
  }

  lemma {:induction false} FilterMembers(socks: seq<Socket>, p: Socket -> bool)
    ensures forall s :: s in Filter(socks, p) <==> s in socks && p(s)
  {
    if socks != [] {
      var n := |socks| - 1;
      FilterMembers(socks[..n], p);
      assert socks[..n] + [socks[n]] == socks;
    }
  }

  /** What can be read off the counters. */
  datatype Measure = InStates(st: SockState) | TxQueue | RxQueue

  function WeightOf(m: Measure): Socket -> nat {
    match m
    case InStates(st) => InState(st)
    case TxQueue => Tx
    case RxQueue => Rx
  }

  function ReadOff(m: Measure, s: Stats): nat {
    match m
    case InStates(st) => CountIn(s, st)
    case TxQueue => s.tx
    case RxQueue => s.rx
  }

  lemma CountsRead(m: Measure, s: Stats, socks: seq<Socket>)
    requires Counts(s, socks)
    ensures ReadOff(m, s) == Weigh(socks, WeightOf(m))
  {}

  lemma {:induction false} ListenersApart(socks: seq<Socket>, w: Socket -> nat)
    ensures Weigh(Listening(socks), w) + Weigh(Clients(socks), w) == Weigh(socks, w)
  {
    if socks != [] {
      var n, sock := |socks| - 1, socks[|socks| - 1];
      var before := socks[..n];
      assert before + [sock] == socks;
      ListenersApart(before, w);
      WeighLast(before, sock, w);
      FilterLast(before, sock, (s: Socket) => s.state == Listen);
      FilterLast(before, sock, (s: Socket) => s.state != Listen);
      WeighLast(Listening(before), sock, w);
      WeighLast(Clients(before), sock, w);
    }
  }

  function PassiveShare(m: Measure, p: Passive): nat {
    ReadOff(m, p.stats) + Weigh(p.listeners, WeightOf(m))
  }

  function ActiveShare(m: Measure, a: Active): nat {
    ReadOff(m, a.stats)
  }

  ghost function TableSum<V>(t: Table<V>, share: V -> nat): nat {
    SumMap(map uid | uid in t :: SumMap(map port | port in t[uid] :: share(t[uid][port])))
  }

  ghost function UserSum(t: map<int, Stats>, m: Measure): nat {
    SumMap(map uid | uid in t :: ReadOff(m, t[uid]))
  }

  const ByUid: Socket -> int := (s: Socket) => s.uid

  function At(socks: seq<Socket>, part: Socket -> int, uid: int, port: int): seq<Socket> {
    Filter(socks, (s: Socket) => s.uid == uid && part(s) == port)
  }

  lemma SocketHasCell(socks: seq<Socket>, s: Socket, part: Socket -> int)
    requires s in socks
    ensures At(socks, part, s.uid, part(s)) != []
  {
    var uid, port := s.uid, part(s);
    FilterMembers(socks, (x: Socket) => x.uid == uid && part(x) == port);
  }

  /** One user's row adds up to that user's sockets. */
  lemma RowAddsUp<V>(row: map<int, V>, uid: int, socks: seq<Socket>, share: V -> nat, part: Socket -> int,
                     w: Socket -> nat)
    requires forall port :: port in row <==> At(socks, part, uid, port) != []
    requires forall port | port in row :: share(row[port]) == Weigh(At(socks, part, uid, port), w)
    ensures SumMap(map port | port in row :: share(row[port])) == Weigh(OfUser(socks, uid), w)
  {
    var mine := OfUser(socks, uid);
    FilterMembers(socks, (s: Socket) => s.uid == uid);
    forall i | 0 <= i < |mine| ensures part(mine[i]) in row.Keys {
      SocketHasCell(socks, mine[i], part);
    }
    PartsAddUp(mine, row.Keys, part, w);
    forall port | port in row
      ensures share(row[port]) == Parts(mine, row.Keys, part, w)[port]
    {
      FilterTwice(socks, (s: Socket) => s.uid == uid, (s: Socket) => part(s) == port,
                  (s: Socket) => s.uid == uid && part(s) == port);
    }
    assert (map port | port in row :: share(row[port])) == Parts(mine, row.Keys, part, w);
  }

  /** A table whose cells weigh what their sockets weigh adds up to all of them. */
  lemma TableAddsUp<V>(t: Table<V>, socks: seq<Socket>, share: V -> nat, part: Socket -> int, w: Socket -> nat)
    requires forall uid, port :: uid in t && port in t[uid] <==> At(socks, part, uid, port) != []
    requires forall uid, port | uid in t && port in t[uid] ::
      share(t[uid][port]) == Weigh(At(socks, part, uid, port), w)
    ensures TableSum(t, share) == Weigh(socks, w)
  {
    hide Weigh, SumMap, At, OfUser;
    var sums := map uid | uid in t :: SumMap(map port | port in t[uid] :: share(t[uid][port]));
    forall uid | uid in t ensures sums[uid] == Weigh(OfUser(socks, uid), w) {
      RowAddsUp(t[uid], uid, socks, share, part, w);
    }
    forall i | 0 <= i < |socks| ensures ByUid(socks[i]) in t.Keys {
      SocketHasCell(socks, socks[i], part);
    }
    PartsAddUp(socks, t.Keys, ByUid, w);
    UsersParts(socks, t.Keys, w);
    assert sums == Parts(socks, t.Keys, ByUid, w);
  }

  lemma UsersParts(socks: seq<Socket>, keys: set<int>, w: Socket -> nat)
    ensures forall uid | uid in keys :: Parts(socks, keys, ByUid, w)[uid] == Weigh(OfUser(socks, uid), w)
  {
    forall uid | uid in keys ensures Parts(socks, keys, ByUid, w)[uid] == Weigh(OfUser(socks, uid), w) {
      FilterSame(socks, (s: Socket) => ByUid(s) == uid, (s: Socket) => s.uid == uid);
    }
  }

  lemma {:induction false} FilterSame(socks: seq<Socket>, p: Socket -> bool, q: Socket -> bool)
    requires forall s :: p(s) <==> q(s)
    ensures Filter(socks, p) == Filter(socks, q)
  {
    if socks != [] {
      FilterSame(socks[..|socks| - 1], p, q);
    }
  }

  const ByLocal: Socket -> int := (s: Socket) => s.local.port
  const ByRemote: Socket -> int := (s: Socket) => s.remote.port

  lemma AtParts(socks: seq<Socket>, uid: int, port: int)
    ensures At(socks, ByLocal, uid, port) == AtLocal(socks, uid, port)
    ensures At(socks, ByRemote, uid, port) == AtRemote(socks, uid, port)
  {
    FilterSame(socks, (s: Socket) => s.uid == uid && ByLocal(s) == port,
               (s: Socket) => s.uid == uid && s.local.port == port);
    FilterSame(socks, (s: Socket) => s.uid == uid && ByRemote(s) == port,
               (s: Socket) => s.uid == uid && s.remote.port == port);
  }

  lemma PassiveAddsUp(t: Table<Passive>, socks: seq<Socket>, m: Measure)
    requires FiledPassive(t, socks)
    ensures TableSum(t, p => PassiveShare(m, p)) == Weigh(socks, WeightOf(m))
  {
    hide HoldsPassive, PassiveShare, WeightOf, At, AtLocal, AtRemote;
    forall uid, port
      ensures uid in t && port in t[uid] <==> At(socks, ByLocal, uid, port) != []
      ensures uid in t && port in t[uid] ==>
        PassiveShare(m, t[uid][port]) == Weigh(At(socks, ByLocal, uid, port), WeightOf(m))
    {
      AtParts(socks, uid, port);
      assert HoldsPassive(CellOf(t, uid, port, NoPassive), AtLocal(socks, uid, port));
      PassiveCell(CellOf(t, uid, port, NoPassive), AtLocal(socks, uid, port), m);
    }
    TableAddsUp(t, socks, p => PassiveShare(m, p), ByLocal, WeightOf(m));
  }

  lemma PassiveCell(p: Passive, socks: seq<Socket>, m: Measure)
    requires HoldsPassive(p, socks)
    ensures PassiveShare(m, p) == Weigh(socks, WeightOf(m))
  {
    CountsRead(m, p.stats, Clients(socks));
    ListenersApart(socks, WeightOf(m));
  }

  lemma ActiveAddsUp(t: Table<Active>, socks: seq<Socket>, m: Measure)
    requires FiledActive(t, socks)
    ensures TableSum(t, a => ActiveShare(m, a)) == Weigh(socks, WeightOf(m))
  {
    hide HoldsActive, ActiveShare, WeightOf, At, AtLocal, AtRemote;
    forall uid, port
      ensures uid in t && port in t[uid] <==> At(socks, ByRemote, uid, port) != []
      ensures uid in t && port in t[uid] ==>
        ActiveShare(m, t[uid][port]) == Weigh(At(socks, ByRemote, uid, port), WeightOf(m))
    {
      AtParts(socks, uid, port);
      assert HoldsActive(CellOf(t, uid, port, NoActive), AtRemote(socks, uid, port));
      ActiveCell(CellOf(t, uid, port, NoActive), AtRemote(socks, uid, port), m);
    }
    TableAddsUp(t, socks, a => ActiveShare(m, a), ByRemote, WeightOf(m));
  }

  lemma ActiveCell(a: Active, socks: seq<Socket>, m: Measure)
    requires HoldsActive(a, socks)
    ensures ActiveShare(m, a) == Weigh(socks, WeightOf(m))
  {
    CountsRead(m, a.stats, socks);
  }

  lemma UsersAddUp(t: map<int, Stats>, socks: seq<Socket>, m: Measure)
    requires FiledUsers(t, socks)
    ensures UserSum(t, m) == Weigh(socks, WeightOf(m))
  {
    hide Counts, ReadOff, WeightOf;
    var sums := map uid | uid in t :: ReadOff(m, t[uid]);
    forall uid | uid in t ensures sums[uid] == Weigh(OfUser(socks, uid), WeightOf(m)) {
      CountsRead(m, t[uid], OfUser(socks, uid));
    }
    forall i | 0 <= i < |socks| ensures ByUid(socks[i]) in t.Keys {
      FilterMembers(socks, (s: Socket) => s.uid == socks[i].uid);
      assert socks[i] in OfUser(socks, socks[i].uid);
    }
    PartsAddUp(socks, t.Keys, ByUid, WeightOf(m));
    UsersParts(socks, t.Keys, WeightOf(m));
    assert sums == Parts(socks, t.Keys, ByUid, WeightOf(m));
  }

  lemma {:induction false} WeighSplit(all: seq<Socket>, a: seq<Socket>, b: seq<Socket>, w: Socket -> nat)
    requires multiset(all) == multiset(a) + multiset(b)
    ensures Weigh(all, w) == Weigh(a, w) + Weigh(b, w)
    decreases |all|
  {
    if all == [] {
      assert |multiset(a)| == 0 && |multiset(b)| == 0;
    } else {
      var n, s := |all| - 1, all[|all| - 1];
      assert all[..n] + [s] == all;
      assert multiset(all) == multiset(all[..n]) + multiset{s};
      assert s in multiset(all);
      if s in a {
        var a' := Without(a, s, w);
        Cancel(multiset(all[..n]), multiset(a') + multiset(b), s);
        WeighSplit(all[..n], a', b, w);
      } else {
        assert s in multiset(b);
        var b' := Without(b, s, w);
        Cancel(multiset(all[..n]), multiset(a) + multiset(b'), s);
        WeighSplit(all[..n], a, b', w);
      }
    }
  }

  lemma {:induction false} Without(a: seq<Socket>, s: Socket, w: Socket -> nat) returns (rest: seq<Socket>)
    requires s in a
    ensures multiset(a) == multiset(rest) + multiset{s} && |rest| == |a| - 1
    ensures Weigh(a, w) == Weigh(rest, w) + w(s)
  {
    var n := |a| - 1;
    assert a[..n] + [a[n]] == a;
    if a[n] == s {
      rest := a[..n];
    } else {
      var rest0 := Without(a[..n], s, w);
      rest := rest0 + [a[n]];
      WeighLast(rest0, a[n], w);
      assert multiset(a) == multiset(a[..n]) + multiset{a[n]};
    }
  }

  /**
   Nothing is lost and nothing counted twice: for every state and both queues the global figure
   is the sum over users, and the sum over the passive cells, their listeners and the active cells.
   */
  lemma ReportAddsUp(c: Connections, socks: seq<Socket>, passive: seq<Socket>, active: seq<Socket>, m: Measure)
    requires Classified(socks, c, passive, active)
    ensures ReadOff(m, c.global) == UserSum(c.byUser, m)
    ensures ReadOff(m, c.global)
         == TableSum(c.passive, p => PassiveShare(m, p)) + TableSum(c.active, a => ActiveShare(m, a))
  {
    CountsRead(m, c.global, socks);
    UsersAddUp(c.byUser, socks, m);
    PassiveAddsUp(c.passive, passive, m);
    ActiveAddsUp(c.active, active, m);
    WeighSplit(socks, passive, active, WeightOf(m));
  }
}
