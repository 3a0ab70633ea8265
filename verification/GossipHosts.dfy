/** Hosts added by hand: the queue of retries and its history over every run (src/gossip/proto.rs). */
module GossipHosts {
  import opened GossipPeers
  import opened GossipNode

  datatype AddrStatus = Available | PingSent

  datatype FutureHost = FutureHost(deadline: int, address: Addr, attempts: nat, timeout: nat)

  /** The heap gives the latest deadline first: `Ord` compares deadlines and the heap is a max-heap. */
  predicate IsLatest(q: set<FutureHost>, h: FutureHost) {
    h in q && forall g | g in q :: g.deadline <= h.deadline
  }

  lemma {:induction false} LatestExists(q: set<FutureHost>)
    requires q != {}
    ensures exists h :: IsLatest(q, h)
    decreases |q|
  {
    var h :| h in q;
    var rest := q - {h};
    if rest != {} {
      LatestExists(rest);
      var g :| IsLatest(rest, g);
      assert q == rest + {h};
      assert IsLatest(q, if g.deadline <= h.deadline then h else g);
    } else {
      assert q == {h};
      assert IsLatest(q, h);
    }
  }

  /** What the two `AddHost` loops work on. */
  datatype Adding = Adding(status: map<Addr, AddrStatus>, queue: set<FutureHost>, outbox: seq<Out>)

  predicate Answers(s: Adding, addr: Addr) {
    addr in s.status && s.status[addr] == Available
  }

  /** One command: a ping unless the host answered before, and a place in the queue when it is new. */
  function Added(peers: Peers, s: Adding, addr: Addr, now: int, timeout: nat): Adding {
    if Answers(s, addr) then s
    else
      var pinged := s.(outbox := s.outbox + [OutPing(addr, peers)]);
      if addr in s.status then pinged
      else pinged.(status := s.status[addr := PingSent],
                   queue := s.queue + {FutureHost(now + timeout, addr, 1, timeout)})
  }

  /** A batch of commands; clock readings and sleeps are arbitrary. */
  function AddedAll(peers: Peers, s: Adding, commands: seq<Addr>, clock: nat -> int, sleep: nat -> nat): Adding {
    if commands == [] then s else
      var n := |commands| - 1;
      Added(peers, AddedAll(peers, s, commands[..n], clock, sleep), commands[n], clock(n), sleep(n))
  }

  /** The addresses of `commands` that had not answered, in order. */
  function Unanswered(s: Adding, commands: seq<Addr>): seq<Addr> {
    if commands == [] then [] else
      var n := |commands| - 1;
      Unanswered(s, commands[..n]) + (if Answers(s, commands[n]) then [] else [commands[n]])
  }

  function PingsTo(peers: Peers, addrs: seq<Addr>): seq<Out> {
    seq(|addrs|, i requires 0 <= i < |addrs| => OutPing(addrs[i], peers))
  }

  /** A batch makes every address it names known, and never changes what is known already. */
  lemma {:induction false} CommandsKnown(peers: Peers, s: Adding, commands: seq<Addr>, clock: nat -> int,
                                         sleep: nat -> nat)
    ensures var status := AddedAll(peers, s, commands, clock, sleep).status;
      && (forall a :: a in status <==> a in s.status || a in commands)
      && (forall a | a in status :: status[a] == if a in s.status then s.status[a] else PingSent)
  {
    if commands != [] {
      var n := |commands| - 1;
      CommandsKnown(peers, s, commands[..n], clock, sleep);
      assert commands == commands[..n] + [commands[n]];
      assert forall a :: a in commands <==> a in commands[..n] || a == commands[n];
    }
  }

  /** It pings every address that had not answered, once for each time it is named. */
  lemma {:induction false} CommandsPing(peers: Peers, s: Adding, commands: seq<Addr>, clock: nat -> int,
                                        sleep: nat -> nat)
    ensures AddedAll(peers, s, commands, clock, sleep).outbox == s.outbox + PingsTo(peers, Unanswered(s, commands))
  {
    if commands != [] {
      var n := |commands| - 1;
      CommandsPing(peers, s, commands[..n], clock, sleep);
      CommandsKnown(peers, s, commands[..n], clock, sleep);
      PingsToMore(peers, Unanswered(s, commands[..n]), commands[n]);
      hide PingsTo;
    }
  }

  /** The entry command `i`, the first that names its address, makes. */
  predicate QueuedBy(h: FutureHost, commands: seq<Addr>, clock: nat -> int, sleep: nat -> nat, i: nat) {
    && i < |commands| && h.address == commands[i] && h.attempts == 1
    && h.deadline == clock(i) + sleep(i) && h.timeout == sleep(i)
    && forall j | 0 <= j < i :: commands[j] != h.address
  }

  /**
   It queues the new addresses, each for a first attempt one sleep after it was first named, and takes
   nothing from the queue.
   */
  lemma {:induction false} CommandsQueue(peers: Peers, s: Adding, commands: seq<Addr>, clock: nat -> int,
                                         sleep: nat -> nat)
    ensures var s' := AddedAll(peers, s, commands, clock, sleep);
      && s.queue <= s'.queue
      && (forall h | h in s'.queue - s.queue ::
            h.address !in s.status && exists i: nat :: QueuedBy(h, commands, clock, sleep, i))
      && (forall a | a in commands && a !in s.status :: exists h | h in s'.queue :: h.address == a && h.attempts == 1)
  {
    if commands != [] {
      var n := |commands| - 1;
      var before := AddedAll(peers, s, commands[..n], clock, sleep);
      CommandsQueue(peers, s, commands[..n], clock, sleep);
      CommandsKnown(peers, s, commands[..n], clock, sleep);
      QueuedMore(peers, before, commands[n], clock(n), sleep(n));
      assert commands == commands[..n] + [commands[n]];
      hide Added;
      var s' := AddedAll(peers, s, commands, clock, sleep);
      forall h | h in s'.queue - s.queue
        ensures h.address !in s.status && exists i: nat :: QueuedBy(h, commands, clock, sleep, i)
      {
        if h in before.queue {
          var i: nat :| QueuedBy(h, commands[..n], clock, sleep, i);
          assert QueuedBy(h, commands, clock, sleep, i);
        } else {
          assert QueuedBy(h, commands, clock, sleep, n);
        }
      }
    }
  }

  lemma QueuedMore(peers: Peers, s: Adding, addr: Addr, now: int, timeout: nat)
    ensures var h := FutureHost(now + timeout, addr, 1, timeout);
      Added(peers, s, addr, now, timeout).queue == if addr in s.status then s.queue else s.queue + {h}
  {}

  lemma PingsToMore(peers: Peers, addrs: seq<Addr>, addr: Addr)
    ensures PingsTo(peers, addrs + [addr]) == PingsTo(peers, addrs) + [OutPing(addr, peers)]
    ensures addrs + [] == addrs
  {}

  /** One turn of the retry loop on the host it took from the queue. */
  function Retried(c: Config, peers: Peers, s: Adding, host: FutureHost, now: int, timeout: nat): Adding {
    var rest := s.(queue := s.queue - {host});
    if Answers(s, host.address) || host.attempts > c.retryTimes then rest
    else Adding(s.status[host.address := PingSent],
                rest.queue + {FutureHost(now + timeout, host.address, host.attempts + 1, timeout)},
                s.outbox + [OutPing(host.address, peers)])
  }

  /** The loop's turns: each takes a host with the latest deadline of all, and that one is due. */
  ghost predicate RetryTurns(c: Config, peers: Peers, hosts: seq<FutureHost>, states: seq<Adding>,
                             clock: nat -> int, sleep: nat -> nat) {
    && |states| == |hosts| + 1
    && forall i | 0 <= i < |hosts| ::
         && IsLatest(states[i].queue, hosts[i]) && hosts[i].deadline < clock(2 * i)
         && states[i + 1] == Retried(c, peers, states[i], hosts[i], clock(2 * i + 1), sleep(i))
  }

  /** The loop stops for an empty queue or a latest deadline that is still to come. */
  ghost predicate NothingDue(queue: set<FutureHost>, now: int) {
    queue == {} || exists h :: IsLatest(queue, h) && h.deadline >= now
  }

  lemma NoTurns(c: Config, peers: Peers, s: Adding, clock: nat -> int, sleep: nat -> nat)
    ensures RetryTurns(c, peers, [], [s], clock, sleep)
  {}

  lemma TurnMore(c: Config, peers: Peers, hosts: seq<FutureHost>, states: seq<Adding>,
                 clock: nat -> int, sleep: nat -> nat, host: FutureHost, next: Adding)
    requires RetryTurns(c, peers, hosts, states, clock, sleep)
    requires IsLatest(states[|hosts|].queue, host) && host.deadline < clock(2 * |hosts|)
    requires next == Retried(c, peers, states[|hosts|], host, clock(2 * |hosts| + 1), sleep(|hosts|))
    ensures RetryTurns(c, peers, hosts + [host], states + [next], clock, sleep)
  {
    hide Retried, IsLatest;
  }

  /**
   The latest deadline decides, not the earliest: whatever is queued and however late, the loop turns
   at all exactly when something is queued and every deadline has passed.
   */
  lemma OneHoldsUpAll(c: Config, peers: Peers, hosts: seq<FutureHost>, states: seq<Adding>,
                      clock: nat -> int, sleep: nat -> nat)
    requires RetryTurns(c, peers, hosts, states, clock, sleep)
    requires NothingDue(states[|hosts|].queue, clock(2 * |hosts|))
    ensures hosts != [] <==> states[0].queue != {} && forall h | h in states[0].queue :: h.deadline < clock(0)
  {
    if hosts != [] {
      var start := 0;
      assert IsLatest(states[start].queue, hosts[start]) && hosts[start].deadline < clock(2 * start);
    }
  }

  /** Two hosts added by hand: the first waits until 10, the second until 100. */
  function TwoHosts(peers: Peers, a: Addr, b: Addr): Adding {
    Added(peers, Added(peers, Adding(map[], {}, []), a, 0, 10), b, 5, 95)
  }

  /** Between the two deadlines the first host is due and gets no retry, because the second is not. */
  lemma DueHostWaits(c: Config, peers: Peers, a: Addr, b: Addr, hosts: seq<FutureHost>, states: seq<Adding>,
                     clock: nat -> int, sleep: nat -> nat)
    requires a != b && 10 < clock(0) <= 100
    requires RetryTurns(c, peers, hosts, states, clock, sleep) && states[0] == TwoHosts(peers, a, b)
    requires NothingDue(states[|hosts|].queue, clock(2 * |hosts|))
    ensures states[|hosts|] == TwoHosts(peers, a, b)
    ensures exists h | h in states[|hosts|].queue :: h.address == a && h.deadline < clock(0)
  {
    var due, later := FutureHost(10, a, 1, 10), FutureHost(100, b, 1, 95);
    assert TwoHosts(peers, a, b).queue == {due, later};
    OneHoldsUpAll(c, peers, hosts, states, clock, sleep);
    assert later in states[0].queue && due in states[0].queue;
  }

  /** While the clock stands still at most one ping goes out, and its host then holds up the rest. */
  lemma {:induction false} OnePingAnInstant(c: Config, peers: Peers, hosts: seq<FutureHost>, states: seq<Adding>,
                                            clock: nat -> int, sleep: nat -> nat, n: nat)
    requires RetryTurns(c, peers, hosts, states, clock, sleep) && n <= |hosts|
    requires forall i: nat :: clock(i) == clock(0)
    ensures |states[n].outbox| <= |states[0].outbox| + 1
    ensures |states[n].outbox| == |states[0].outbox| || exists h | h in states[n].queue :: h.deadline >= clock(0)
  {
    if n > 0 {
      OnePingAnInstant(c, peers, hosts, states, clock, sleep, n - 1);
      var s, host := states[n - 1], hosts[n - 1];
      assert IsLatest(s.queue, host) && host.deadline < clock(2 * (n - 1)) == clock(0);
      assert states[n] == Retried(c, peers, s, host, clock(2 * (n - 1) + 1), sleep(n - 1));
      if states[n].outbox != s.outbox {
        var next := FutureHost(clock(0) + sleep(n - 1), host.address, host.attempts + 1, sleep(n - 1));
        assert next in states[n].queue;
      }
    }
  }

  /** No address waits twice. */
  predicate OncePerAddress(q: set<FutureHost>) {
    forall g, h | g in q && h in q && g.address == h.address :: g == h
  }

  /** The entry a ping leaves behind: due one sleep after it, counting one attempt more. */
  function Again(host: FutureHost, now: int, timeout: nat): FutureHost {
    FutureHost(now + timeout, host.address, host.attempts + 1, timeout)
  }

  predicate Pings(c: Config, s: Adding, host: FutureHost) {
    !Answers(s, host.address) && host.attempts <= c.retryTimes
  }

  /** Until the loop takes a pinged host again its entry waits as it was left. */
  lemma {:induction false} EntryWaits(c: Config, peers: Peers, hosts: seq<FutureHost>, states: seq<Adding>,
                                      clock: nat -> int, sleep: nat -> nat, i: nat, j: nat, again: FutureHost)
    requires RetryTurns(c, peers, hosts, states, clock, sleep) && i < j <= |hosts|
    requires OncePerAddress(states[i].queue) && Pings(c, states[i], hosts[i])
    requires again == Again(hosts[i], clock(2 * i + 1), sleep(i))
    requires forall k | i < k < j :: hosts[k].address != again.address
    ensures j < |states| && OncePerAddress(states[j].queue) && again in states[j].queue
  {
    var last := j - 1;
    TurnIs(c, peers, hosts, states, clock, sleep, last);
    hide RetryTurns, OncePerAddress, Pings, Retried;
    if last > i {
      EntryWaits(c, peers, hosts, states, clock, sleep, i, last, again);
    }
    OnceKept(c, peers, states[last], hosts[last], clock(2 * last + 1), sleep(last));
  }

  /**
   A host that was pinged waits out its sleep: the loop takes it again only with the entry left then,
   and only when the clock has passed its deadline.
   */
  lemma RetriesAreSpaced(c: Config, peers: Peers, hosts: seq<FutureHost>, states: seq<Adding>,
                         clock: nat -> int, sleep: nat -> nat, i: nat, j: nat)
    requires RetryTurns(c, peers, hosts, states, clock, sleep) && i < j < |hosts|
    requires OncePerAddress(states[i].queue) && Pings(c, states[i], hosts[i])
    requires hosts[j].address == hosts[i].address && forall k | i < k < j :: hosts[k].address != hosts[i].address
    ensures hosts[j] == FutureHost(clock(2 * i + 1) + sleep(i), hosts[i].address, hosts[i].attempts + 1, sleep(i))
    ensures clock(2 * j) > clock(2 * i + 1) + sleep(i)
  {
    EntryWaits(c, peers, hosts, states, clock, sleep, i, j, Again(hosts[i], clock(2 * i + 1), sleep(i)));
    TurnTakes(c, peers, hosts, states, clock, sleep, j);
    hide RetryTurns, Pings;
  }

  lemma TurnIs(c: Config, peers: Peers, hosts: seq<FutureHost>, states: seq<Adding>,
               clock: nat -> int, sleep: nat -> nat, i: nat)
    requires RetryTurns(c, peers, hosts, states, clock, sleep) && i < |hosts|
    ensures i + 1 < |states| && hosts[i] in states[i].queue
    ensures states[i + 1] == Retried(c, peers, states[i], hosts[i], clock(2 * i + 1), sleep(i))
  {
    hide Retried;
    assert IsLatest(states[i].queue, hosts[i]);
  }

  lemma TurnTakes(c: Config, peers: Peers, hosts: seq<FutureHost>, states: seq<Adding>,
                  clock: nat -> int, sleep: nat -> nat, i: nat)
    requires RetryTurns(c, peers, hosts, states, clock, sleep) && i < |hosts|
    ensures hosts[i] in states[i].queue && hosts[i].deadline < clock(2 * i)
  {
    hide Retried;
    assert IsLatest(states[i].queue, hosts[i]);
  }

  lemma OnceKept(c: Config, peers: Peers, s: Adding, host: FutureHost, now: int, timeout: nat)
    requires host in s.queue && OncePerAddress(s.queue)
    ensures OncePerAddress(Retried(c, peers, s, host, now, timeout).queue)
    ensures Pings(c, s, host) ==> Again(host, now, timeout) in Retried(c, peers, s, host, now, timeout).queue
    ensures forall h | h in s.queue && h.address != host.address :: h in Retried(c, peers, s, host, now, timeout).queue
  {
    hide Answers;
  }

  /** How often the retry loop can still turn. */
  ghost function Budget(q: set<FutureHost>, retries: nat): nat {
    if q == {} then 0 else
      var h :| h in q;
      Turns(h, retries) + Budget(q - {h}, retries)
  }

  function Turns(h: FutureHost, retries: nat): nat {
    if h.attempts <= retries + 1 then retries + 2 - h.attempts else 1
  }

  lemma {:induction false} BudgetRemove(q: set<FutureHost>, h: FutureHost, retries: nat)
    requires h in q
    ensures Budget(q, retries) == Turns(h, retries) + Budget(q - {h}, retries)
    decreases |q|
  {
    var g :| g in q && Budget(q, retries) == Turns(g, retries) + Budget(q - {g}, retries);
    if g != h {
      BudgetRemove(q - {g}, h, retries);
      BudgetRemove(q - {h}, g, retries);
      assert q - {g} - {h} == q - {h} - {g};
    }
  }

  lemma BudgetAdd(q: set<FutureHost>, h: FutureHost, retries: nat)
    requires h !in q
    ensures Budget(q + {h}, retries) == Turns(h, retries) + Budget(q, retries)
  {
    BudgetRemove(q + {h}, h, retries);
    assert q + {h} - {h} == q;
  }

  // ---------------------------------------------------------------- every run

  /**
   Every address was queued at most once and keeps a status from then on; a waiting host has been
   retried once less than its attempts, and no address more often than configured.
   */
  ghost predicate QueueSound(retries: nat, known: set<Addr>, q: set<FutureHost>,
                             everQueued: multiset<Addr>, retried: multiset<Addr>) {
    && (forall a | a in everQueued :: a in known && everQueued[a] == 1)
    && (forall h | h in q ::
          h.address in everQueued && 1 <= h.attempts <= retries + 1 && retried[h.address] == h.attempts - 1)
    && (forall g, h | g in q && h in q && g.address == h.address :: g == h)
    && (forall a | a in retried :: a in everQueued && retried[a] <= retries)
  }

  lemma QueuedOnce(retries: nat, known: set<Addr>, q: set<FutureHost>, ever: multiset<Addr>, retried: multiset<Addr>)
    requires QueueSound(retries, known, q, ever, retried)
    ensures forall a | a in ever :: a in known && ever[a] == 1
    ensures forall h | h in q :: h.address in known
  {}

  lemma QueueDrops(retries: nat, known: set<Addr>, q: set<FutureHost>, ever: multiset<Addr>,
                   retried: multiset<Addr>, h: FutureHost)
    requires QueueSound(retries, known, q, ever, retried)
    ensures QueueSound(retries, known, q - {h}, ever, retried)
  {}

  lemma QueueGrows(retries: nat, known: set<Addr>, q: set<FutureHost>, ever: multiset<Addr>,
                   retried: multiset<Addr>, h: FutureHost)
    requires QueueSound(retries, known, q, ever, retried)
    requires h.address !in known && h.attempts == 1
    ensures QueueSound(retries, known + {h.address}, q + {h}, ever + multiset{h.address}, retried)
  {
    assert retried[h.address] == 0;
  }

  lemma QueueRetries(retries: nat, known: set<Addr>, q: set<FutureHost>, ever: multiset<Addr>, retried: multiset<Addr>,
                     h: FutureHost, next: FutureHost)
    requires QueueSound(retries, known, q, ever, retried) && h in q
    requires h.attempts <= retries && next.address == h.address && next.attempts == h.attempts + 1
    ensures next !in q
    ensures QueueSound(retries, known, q - {h} + {next}, ever, retried + multiset{h.address})
  {
    forall g | g in q - {h} + {next}
      ensures g.address in ever && 1 <= g.attempts <= retries + 1
      ensures (retried + multiset{h.address})[g.address] == g.attempts - 1
    {
      if g != next {
        assert g.address != h.address;
      }
    }
  }

  lemma QueueKnowsMore(retries: nat, known: set<Addr>, more: set<Addr>, q: set<FutureHost>,
                       ever: multiset<Addr>, retried: multiset<Addr>)
    requires QueueSound(retries, known, q, ever, retried) && known <= more
    ensures QueueSound(retries, more, q, ever, retried)
  {}

  /** The queue and its history: every host pushed when new, every ping the retry loop sent. */
  datatype Ledger = Ledger(adding: Adding, ever: multiset<Addr>, retried: multiset<Addr>)

  datatype Event =
    | Command(addr: Addr, now: int, timeout: nat)
    | Turn(host: FutureHost, now: int, timeout: nat)
    | Reply(addr: Addr)

  function After(c: Config, peers: Peers, l: Ledger, e: Event): Ledger {
    var s := l.adding;
    match e
    case Command(addr, now, timeout) =>
      Ledger(Added(peers, s, addr, now, timeout),
             if addr in s.status then l.ever else l.ever + multiset{addr}, l.retried)
    case Turn(host, now, timeout) =>
      Ledger(Retried(c, peers, s, host, now, timeout), l.ever,
             if Answers(s, host.address) || host.attempts > c.retryTimes then l.retried
             else l.retried + multiset{host.address})
    case Reply(addr) => l.(adding := s.(status := s.status[addr := Available]))
  }

  ghost predicate Sound(c: Config, l: Ledger) {
    QueueSound(c.retryTimes, l.adding.status.Keys, l.adding.queue, l.ever, l.retried)
  }

  ghost predicate Possible(l: Ledger, e: Event) {
    e.Turn? ==> e.host in l.adding.queue
  }

  /** Unknown, then pinged, then answering. */
  function Rank(s: Adding, a: Addr): nat {
    if a !in s.status then 0 else if s.status[a] == PingSent then 1 else 2
  }

  /** Sound, and no status fell back. */
  ghost predicate Moves(c: Config, l: Ledger, l': Ledger) {
    Sound(c, l') && forall a :: Rank(l.adding, a) <= Rank(l'.adding, a)
  }

  lemma CommandKeepsSound(c: Config, peers: Peers, l: Ledger, addr: Addr, now: int, timeout: nat)
    requires Sound(c, l)
    ensures Moves(c, l, After(c, peers, l, Command(addr, now, timeout)))
  {
    var s := l.adding;
    if addr !in s.status {
      QueueGrows(c.retryTimes, s.status.Keys, s.queue, l.ever, l.retried, FutureHost(now + timeout, addr, 1, timeout));
      assert s.status[addr := PingSent].Keys == s.status.Keys + {addr};
    }
    hide QueueSound;
  }

  lemma TurnKeepsSound(c: Config, peers: Peers, l: Ledger, h: FutureHost, now: int, timeout: nat)
    requires Sound(c, l) && h in l.adding.queue
    ensures Moves(c, l, After(c, peers, l, Turn(h, now, timeout)))
  {
    var s := l.adding;
    QueuedOnce(c.retryTimes, s.status.Keys, s.queue, l.ever, l.retried);
    if Answers(s, h.address) || h.attempts > c.retryTimes {
      QueueDrops(c.retryTimes, s.status.Keys, s.queue, l.ever, l.retried, h);
      hide QueueSound;
    } else {
      RetryKeepsSound(c, peers, l, h, now, timeout);
      hide Moves, After;
    }
  }

  lemma RetryKeepsSound(c: Config, peers: Peers, l: Ledger, h: FutureHost, now: int, timeout: nat)
    requires Sound(c, l) && h in l.adding.queue && h.address in l.adding.status
    requires !Answers(l.adding, h.address) && h.attempts <= c.retryTimes
    ensures Moves(c, l, After(c, peers, l, Turn(h, now, timeout)))
  {
    var s, next := l.adding, FutureHost(now + timeout, h.address, h.attempts + 1, timeout);
    QueueRetries(c.retryTimes, s.status.Keys, s.queue, l.ever, l.retried, h, next);
    hide QueueSound;
    assert s.status[h.address := PingSent].Keys == s.status.Keys;
  }

  lemma ReplyKeepsSound(c: Config, peers: Peers, l: Ledger, addr: Addr)
    requires Sound(c, l)
    ensures Moves(c, l, After(c, peers, l, Reply(addr)))
  {
    var s := l.adding;
    QueueKnowsMore(c.retryTimes, s.status.Keys, s.status.Keys + {addr}, s.queue, l.ever, l.retried);
    assert s.status[addr := Available].Keys == s.status.Keys + {addr};
    hide QueueSound;
  }

  lemma EventKeepsSound(c: Config, peers: Peers, l: Ledger, e: Event)
    requires Sound(c, l) && Possible(l, e)
    ensures Sound(c, After(c, peers, l, e))
    ensures forall a :: Rank(l.adding, a) <= Rank(After(c, peers, l, e).adding, a)
  {
    hide Sound, After, Rank;
    match e
    case Command(addr, now, timeout) => CommandKeepsSound(c, peers, l, addr, now, timeout);
    case Turn(host, now, timeout) => TurnKeepsSound(c, peers, l, host, now, timeout);
    case Reply(addr) => ReplyKeepsSound(c, peers, l, addr);
  }

  /** Commands, turns of the retry loop and answers in any order; the peers known change in between. */
  ghost predicate IsRun(c: Config, ledgers: seq<Ledger>, events: seq<Event>, peers: seq<Peers>) {
    && |ledgers| == |events| + 1 && |peers| == |events|
    && ledgers[0] == Ledger(Adding(map[], {}, []), multiset{}, multiset{})
    && forall i | 0 <= i < |events| ::
         Possible(ledgers[i], events[i]) && ledgers[i + 1] == After(c, peers[i], ledgers[i], events[i])
  }

  lemma {:induction false} RunsStaySound(c: Config, ledgers: seq<Ledger>, events: seq<Event>, peers: seq<Peers>, i: nat)
    requires IsRun(c, ledgers, events, peers) && i <= |events|
    ensures Sound(c, ledgers[i])
  {
    if i > 0 {
      RunsStaySound(c, ledgers, events, peers, i - 1);
      hide Sound, After;
      EventKeepsSound(c, peers[i - 1], ledgers[i - 1], events[i - 1]);
    }
  }

  /**
   Over every run an address is queued at most once, is retried no more often than configured, and
   its status never falls back.
   */
  lemma {:induction false} RunsBoundRetries(c: Config, ledgers: seq<Ledger>, events: seq<Event>, peers: seq<Peers>,
                                            i: nat, j: nat, a: Addr)
    requires IsRun(c, ledgers, events, peers) && i <= j <= |events|
    ensures ledgers[j].ever[a] <= 1 && ledgers[j].retried[a] <= c.retryTimes
    ensures Rank(ledgers[i].adding, a) <= Rank(ledgers[j].adding, a)
    decreases j
  {
    RunsStaySound(c, ledgers, events, peers, j);
    assert a in ledgers[j].ever || ledgers[j].ever[a] == 0;
    assert a in ledgers[j].retried || ledgers[j].retried[a] == 0;
    if i < j {
      RunsBoundRetries(c, ledgers, events, peers, i, j - 1, a);
      RunsStaySound(c, ledgers, events, peers, j - 1);
      hide Sound, After, Rank;
      EventKeepsSound(c, peers[j - 1], ledgers[j - 1], events[j - 1]);
    }
  }

  predicate Waiting(queue: set<FutureHost>, a: Addr) {
    exists h | h in queue :: h.address == a
  }

  /** No host is given up early: it waits for a retry, has answered, or has had them all. */
  ghost predicate Pursued(c: Config, l: Ledger) {
    forall a | a in l.ever ::
      Waiting(l.adding.queue, a) || Answers(l.adding, a) || l.retried[a] == c.retryTimes
  }

  lemma CommandKeepsPursued(c: Config, peers: Peers, l: Ledger, addr: Addr, now: int, timeout: nat)
    requires Sound(c, l) && Pursued(c, l)
    ensures Pursued(c, After(c, peers, l, Command(addr, now, timeout)))
  {
    var s, l' := l.adding, After(c, peers, l, Command(addr, now, timeout));
    if addr !in s.status {
      assert FutureHost(now + timeout, addr, 1, timeout) in l'.adding.queue;
      assert addr !in l.ever;
    }
    hide QueueSound;
    forall a | a in l'.ever && a != addr
      ensures Waiting(l'.adding.queue, a) || Answers(l'.adding, a) || l'.retried[a] == c.retryTimes
    {
      assert a in l.ever;
    }
  }

  lemma TurnKeepsPursued(c: Config, peers: Peers, l: Ledger, h: FutureHost, now: int, timeout: nat)
    requires Sound(c, l) && Pursued(c, l) && h in l.adding.queue
    ensures Pursued(c, After(c, peers, l, Turn(h, now, timeout)))
  {
    var s, l' := l.adding, After(c, peers, l, Turn(h, now, timeout));
    assert h.attempts <= c.retryTimes + 1 && l.retried[h.address] == h.attempts - 1;
    hide QueueSound;
    if !Answers(s, h.address) && h.attempts <= c.retryTimes {
      assert FutureHost(now + timeout, h.address, h.attempts + 1, timeout) in l'.adding.queue;
    }
    forall a | a in l'.ever && a != h.address
      ensures Waiting(l'.adding.queue, a) || Answers(l'.adding, a) || l'.retried[a] == c.retryTimes
    {
      if Waiting(s.queue, a) {
        var g :| g in s.queue && g.address == a;
        assert g in l'.adding.queue;
      }
    }
  }

  lemma ReplyKeepsPursued(c: Config, peers: Peers, l: Ledger, addr: Addr)
    requires Pursued(c, l)
    ensures Pursued(c, After(c, peers, l, Reply(addr)))
  {
    var l' := After(c, peers, l, Reply(addr));
    forall a | a in l'.ever
      ensures Waiting(l'.adding.queue, a) || Answers(l'.adding, a) || l'.retried[a] == c.retryTimes
    {
      assert Answers(l.adding, a) ==> Answers(l'.adding, a);
    }
  }

  lemma EventKeepsPursued(c: Config, peers: Peers, l: Ledger, e: Event)
    requires Sound(c, l) && Pursued(c, l) && Possible(l, e)
    ensures Pursued(c, After(c, peers, l, e))
  {
    hide Sound, Pursued, After;
    match e
    case Command(addr, now, timeout) => CommandKeepsPursued(c, peers, l, addr, now, timeout);
    case Turn(host, now, timeout) => TurnKeepsPursued(c, peers, l, host, now, timeout);
    case Reply(addr) => ReplyKeepsPursued(c, peers, l, addr);
  }

  /** Over every run a host waits for a retry until it has answered or has had them all. */
  lemma {:induction false} RunsPursue(c: Config, ledgers: seq<Ledger>, events: seq<Event>, peers: seq<Peers>, i: nat)
    requires IsRun(c, ledgers, events, peers) && i <= |events|
    ensures Pursued(c, ledgers[i])
  {
    if i > 0 {
      hide Sound, Pursued, After;
      RunsPursue(c, ledgers, events, peers, i - 1);
      RunsStaySound(c, ledgers, events, peers, i - 1);
      EventKeepsPursued(c, peers[i - 1], ledgers[i - 1], events[i - 1]);
    } else {
      NothingToPursue(c, ledgers[0]);
    }
  }

  lemma NothingToPursue(c: Config, l: Ledger)
    requires l.ever == multiset{}
    ensures Pursued(c, l)
  {}

  /** The two hosts of `DueHostWaits` are what a run of two commands leaves. */
  lemma TwoHostsReached(c: Config, peers: Peers, a: Addr, b: Addr)
    requires a != b
    ensures exists ledgers: seq<Ledger>, events: seq<Event>, known: seq<Peers> ::
      IsRun(c, ledgers, events, known) && |events| == 2 && ledgers[2].adding == TwoHosts(peers, a, b)
  {
    var l0 := Ledger(Adding(map[], {}, []), multiset{}, multiset{});
    var l1 := After(c, peers, l0, Command(a, 0, 10));
    var l2 := After(c, peers, l1, Command(b, 5, 95));
    assert IsRun(c, [l0, l1, l2], [Command(a, 0, 10), Command(b, 5, 95)], [peers, peers]);
  }
}
