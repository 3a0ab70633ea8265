/** Fairness of the ping rounds over any sequence of calls (src/gossip/proto.rs, `ping_hosts`). */
module GossipRounds {
  import opened Wrappers
  import opened GossipPeers
  import opened GossipNode
  import opened GossipProto

  /**
   The queue a call works on: a refill (`order`, the peers known at that call in some order)
   happens only when nothing is left.
   */
  function Working(q: seq<Id>, order: seq<Id>): seq<Id> {
    if q == [] then order else q
  }

  /** The queue after `t` calls; `orders[i]` is what call `i` would refill with. */
  function QueueAfter(q: seq<Id>, orders: seq<seq<Id>>, k: nat, t: nat): seq<Id>
    requires t <= |orders|
  {
    if t == 0 then q else LeftAfter(Working(QueueAfter(q, orders, k, t - 1), orders[t - 1]), k)
  }

  /** The ids considered by call `t`. */
  function Considered(q: seq<Id>, orders: seq<seq<Id>>, k: nat, t: nat): seq<Id>
    requires t < |orders|
  {
    Popped(Working(QueueAfter(q, orders, k, t), orders[t]), k)
  }

  /** All ids considered by calls `lo` up to `hi`, in order. */
  function ConsideredIn(q: seq<Id>, orders: seq<seq<Id>>, k: nat, lo: nat, hi: nat): seq<Id>
    requires lo <= hi <= |orders|
  {
    if lo == hi then [] else ConsideredIn(q, orders, k, lo, hi - 1) + Considered(q, orders, k, hi - 1)
  }

  function Calls(n: nat, k: nat): nat
    requires k > 0
  {
    (n + k - 1) / k
  }

  /** The last `n` elements, last first. */
  function LastFirst(q: seq<Id>, n: nat): seq<Id>
    requires n <= |q|
  {
    seq(n, i requires 0 <= i < n => q[|q| - 1 - i])
  }

  /** What is left of n after t calls. */
  function Rest(n: nat, t: nat, k: nat): (r: nat)
    ensures r <= n
  {
    if t * k <= n then n - t * k else 0
  }

  lemma CallsEmpty(n: nat, k: nat, t: nat)
    requires k > 0
    ensures Rest(n, t, k) == 0 <==> t >= Calls(n, k)
  {
    var c := Calls(n, k);
    assert c * k >= n && (c > 0 ==> (c - 1) * k < n) by { DivBounds(n, k); }
    if t >= c {
      MulMonotone(c, t, k);
    } else {
      MulMonotone(t, c - 1, k);
    }
  }

  lemma CallsPositive(n: nat, k: nat)
    requires k > 0 && n > 0
    ensures Calls(n, k) > 0
  {
    DivBounds(n, k);
  }

  lemma DivBounds(n: nat, k: nat)
    requires k > 0
    ensures Calls(n, k) * k >= n && (Calls(n, k) > 0 ==> (Calls(n, k) - 1) * k < n)
  {
    var m := n + k - 1;
    assert m == m / k * k + m % k;
  }

  lemma MulMonotone(a: nat, b: nat, k: nat)
    requires a <= b
    ensures a * k <= b * k
  {}

  /**
   A queue, once there, is worked off from the back: after `t` calls `t * k` ids are gone, each
   considered once, and no refill happens before it is empty.
   */
  lemma {:induction false} QueueDrains(q: seq<Id>, orders: seq<seq<Id>>, k: nat, start: nat, w: seq<Id>, t: nat)
    requires k > 0 && start < |orders| && start + t <= |orders|
    requires w == Working(QueueAfter(q, orders, k, start), orders[start])
    requires 1 <= t <= Calls(|w|, k)
    ensures QueueAfter(q, orders, k, start + t) == w[..Rest(|w|, t, k)]
    ensures ConsideredIn(q, orders, k, start, start + t) == LastFirst(w, |w| - Rest(|w|, t, k))
    decreases t
  {
    hide Calls, QueueAfter, ConsideredIn, Working, LastFirst;
    RestStep(|w|, t, k);
    RestStart(|w|, k);
    if t == 1 {
      hide Rest;
      DrainFirst(q, orders, k, start, w);
    } else {
      CallsEmpty(|w|, k, t - 1);
      QueueDrains(q, orders, k, start, w, t - 1);
      hide Rest;
      DrainNext(q, orders, k, start, start + t - 1, w, Rest(|w|, t - 1, k));
    }
  }

  lemma DrainFirst(q: seq<Id>, orders: seq<seq<Id>>, k: nat, start: nat, w: seq<Id>)
    requires start < |orders| && w == Working(QueueAfter(q, orders, k, start), orders[start])
    ensures QueueAfter(q, orders, k, start + 1) == w[..|w| - Least(k, |w|)]
    ensures ConsideredIn(q, orders, k, start, start + 1) == LastFirst(w, Least(k, |w|))
  {
    ConsideredOne(q, orders, k, start);
    hide QueueAfter, ConsideredIn;
    assert Popped(w, k) == LastFirst(w, Least(k, |w|));
    assert [] + Popped(w, k) == Popped(w, k);
  }

  lemma DrainNext(q: seq<Id>, orders: seq<seq<Id>>, k: nat, start: nat, u: nat, w: seq<Id>, m: nat)
    requires start <= u < |orders| && 0 < m <= |w|
    requires QueueAfter(q, orders, k, u) == w[..m]
    requires ConsideredIn(q, orders, k, start, u) == LastFirst(w, |w| - m)
    ensures QueueAfter(q, orders, k, u + 1) == w[..m - Least(k, m)]
    ensures ConsideredIn(q, orders, k, start, u + 1) == LastFirst(w, |w| - (m - Least(k, m)))
  {
    ConsideredNext(q, orders, k, start, u);
    DrainStep(w, m, k);
    hide QueueAfter, ConsideredIn, LastFirst, Popped, LeftAfter;
  }

  lemma RestStart(n: nat, k: nat)
    ensures Rest(n, 0, k) == n
  {}

  lemma ConsideredOne(q: seq<Id>, orders: seq<seq<Id>>, k: nat, start: nat)
    requires start < |orders|
    ensures ConsideredIn(q, orders, k, start, start + 1)
         == [] + Popped(Working(QueueAfter(q, orders, k, start), orders[start]), k)
    ensures QueueAfter(q, orders, k, start + 1) == LeftAfter(Working(QueueAfter(q, orders, k, start), orders[start]), k)
  {
    assert ConsideredIn(q, orders, k, start, start) == [];
  }

  /** A call that still finds something in the queue. */
  lemma ConsideredNext(q: seq<Id>, orders: seq<seq<Id>>, k: nat, start: nat, u: nat)
    requires start <= u < |orders| && QueueAfter(q, orders, k, u) != []
    ensures ConsideredIn(q, orders, k, start, u + 1)
         == ConsideredIn(q, orders, k, start, u) + Popped(QueueAfter(q, orders, k, u), k)
    ensures QueueAfter(q, orders, k, u + 1) == LeftAfter(QueueAfter(q, orders, k, u), k)
  {}

  /** One call on what is left of `w`. */
  lemma DrainStep(w: seq<Id>, m: nat, k: nat)
    requires 0 < m <= |w|
    ensures LeftAfter(w[..m], k) == w[..m - Least(k, m)]
    ensures LastFirst(w, |w| - m) + Popped(w[..m], k) == LastFirst(w, |w| - (m - Least(k, m)))
  {
    assert Popped(w[..m], k) == LastFirst(w[..m], Least(k, m));
  }

  lemma RestStep(n: nat, t: nat, k: nat)
    requires t > 0
    ensures Rest(n, t, k) == Rest(n, t - 1, k) - Least(k, Rest(n, t - 1, k))
  {
    assert t * k == (t - 1) * k + k;
  }

  /** A queue of n ids is empty after exactly the rounded-up n / k calls, each id considered once. */
  lemma DrainedExactly(q: seq<Id>, orders: seq<seq<Id>>, k: nat, start: nat, w: seq<Id>, c: nat)
    requires k > 0 && start < |orders|
    requires w == Working(QueueAfter(q, orders, k, start), orders[start]) && w != []
    requires c == Calls(|w|, k) && start + c <= |orders|
    ensures c > 0 && QueueAfter(q, orders, k, start + c) == []
    ensures forall u | start < u < start + c :: QueueAfter(q, orders, k, u) != []
    ensures multiset(ConsideredIn(q, orders, k, start, start + c)) == multiset(w)
  {
    hide Rest, Calls, LastFirst, QueueAfter, ConsideredIn;
    CallsPositive(|w|, k);
    CallsEmpty(|w|, k, c);
    QueueDrains(q, orders, k, start, w, c);
    ReversedSame(w);
    forall u | start < u < start + c ensures QueueAfter(q, orders, k, u) != [] {
      CallsEmpty(|w|, k, u - start);
      QueueDrains(q, orders, k, start, w, u - start);
      assert start + (u - start) == u && |w[..Rest(|w|, u - start, k)]| > 0;
    }
  }

  lemma {:induction false} ReversedSame(w: seq<Id>)
    ensures multiset(LastFirst(w, |w|)) == multiset(w)
    decreases |w|
  {
    if w == [] {
      assert LastFirst(w, 0) == [];
    } else {
      var n := |w| - 1;
      ReversedSame(w[..n]);
      assert LastFirst(w, n + 1) == [w[n]] + LastFirst(w[..n], n);
      assert w == w[..n] + [w[n]];
    }
  }

  lemma {:induction false} InSomeCall(q: seq<Id>, orders: seq<seq<Id>>, k: nat, lo: nat, hi: nat, id: Id)
    requires lo <= hi <= |orders| && id in ConsideredIn(q, orders, k, lo, hi)
    ensures exists t | lo <= t < hi :: id in Considered(q, orders, k, t)
    decreases hi
  {
    if lo < hi && id !in Considered(q, orders, k, hi - 1) {
      InSomeCall(q, orders, k, lo, hi - 1, id);
    }
  }

  /**
   A peer that stays known is considered within the calls that empty the present queue and the
   calls that work off the next one.
   */
  lemma StaysKnownIsConsidered(q: seq<Id>, orders: seq<seq<Id>>, k: nat, id: Id, c1: nat, c2: nat)
    requires k > 0 && c1 == Calls(|q|, k) < |orders|
    requires c2 == Calls(|orders[c1]|, k) && c1 + c2 <= |orders|
    requires forall i | 0 <= i < |orders| :: id in orders[i]
    ensures exists t | 0 <= t < c1 + c2 :: id in Considered(q, orders, k, t)
  {
    hide Calls, QueueAfter, Considered, ConsideredIn;
    var next := orders[c1];
    assert id in next;
    EmptyAfter(q, orders, k, c1);
    DrainedExactly(q, orders, k, c1, next, c2);
    assert id in multiset(ConsideredIn(q, orders, k, c1, c1 + c2));
    InSomeCall(q, orders, k, c1, c1 + c2, id);
  }

  lemma EmptyAfter(q: seq<Id>, orders: seq<seq<Id>>, k: nat, c: nat)
    requires k > 0 && c == Calls(|q|, k) < |orders|
    ensures QueueAfter(q, orders, k, c) == []
  {
    hide Calls;
    assert QueueAfter(q, orders, k, 0) == q;
    if q == [] {
      CallsOfNone(k);
    } else {
      hide QueueAfter;
      DrainedExactly(q, orders, k, 0, q, c);
    }
  }

  lemma CallsOfNone(k: nat)
    requires k > 0
    ensures Calls(0, k) == 0
  {}

  // ---------------------------------------------------------------- the object over many rounds

  /** What may change the peers between two rounds. */
  datatype Between = Heard(packet: Packet, addr: Addr, tm: int, clock: nat -> int) | Swept(now: int)

  /** The events before a round, and the clock of the round itself. */
  datatype Turn = Turn(before: seq<Between>, tm: int, clock: nat -> int)

  /** One round: the peers it began with, what it would refill the queue with, and its steps. */
  datatype Round = Round(known: Peers, order: seq<Id>, popped: seq<Id>, states: seq<Peers>, outs: seq<seq<Out>>)

  function Orders(rounds: seq<Round>): (r: seq<seq<Id>>)
    ensures |r| == |rounds|
  {
    seq(|rounds|, i requires 0 <= i < |rounds| => rounds[i].order)
  }

  /** Round `t`: `order` lists the peers known, and the ids the queue gives it are considered in turn. */
  ghost predicate Rounded(c: Config, q: seq<Id>, rounds: seq<Round>, plan: seq<Turn>, t: nat)
    requires t < |rounds| <= |plan|
  {
    var r := rounds[t];
    && Lists(r.order, r.known.Keys)
    && r.popped == Considered(q, Orders(rounds), c.numPings, t)
    && |r.states| == |r.popped| + 1
    && RoundSteps(c, r.popped, plan[t].tm, plan[t].clock, r.known, r.states, r.states[|r.popped|], r.outs)
  }

  lemma {:induction false} QueueMore(q: seq<Id>, orders: seq<seq<Id>>, order: seq<Id>, k: nat, t: nat)
    requires t <= |orders|
    ensures QueueAfter(q, orders + [order], k, t) == QueueAfter(q, orders, k, t)
    decreases t
  {
    if t > 0 {
      QueueMore(q, orders, order, k, t - 1);
      hide Working, LeftAfter;
    }
  }

  lemma RoundsMore(c: Config, q: seq<Id>, rounds: seq<Round>, plan: seq<Turn>, r: Round)
    requires |rounds| < |plan| && forall t: nat | t < |rounds| :: Rounded(c, q, rounds, plan, t)
    requires Lists(r.order, r.known.Keys) && |r.states| == |r.popped| + 1
    requires r.popped == Popped(Working(QueueAfter(q, Orders(rounds), c.numPings, |rounds|), r.order), c.numPings)
    requires var n := |rounds|;
      RoundSteps(c, r.popped, plan[n].tm, plan[n].clock, r.known, r.states, r.states[|r.popped|], r.outs)
    ensures forall t: nat | t <= |rounds| :: Rounded(c, q, rounds + [r], plan, t)
    ensures QueueAfter(q, Orders(rounds + [r]), c.numPings, |rounds| + 1)
         == LeftAfter(Working(QueueAfter(q, Orders(rounds), c.numPings, |rounds|), r.order), c.numPings)
  {
    var more, orders := rounds + [r], Orders(rounds);
    assert Orders(more) == orders + [r.order];
    hide Lists, RoundSteps, Working, QueueAfter, Popped, LeftAfter, Orders;
    QueueMore(q, orders, r.order, c.numPings, |rounds|);
    QueueStep(q, orders + [r.order], c.numPings, |rounds|);
    forall t: nat | t <= |rounds| ensures Rounded(c, q, more, plan, t) {
      QueueMore(q, orders, r.order, c.numPings, t);
      if t < |rounds| {
        assert Rounded(c, q, rounds, plan, t);
      }
    }
  }

  lemma QueueStep(q: seq<Id>, orders: seq<seq<Id>>, k: nat, t: nat)
    requires t < |orders|
    ensures QueueAfter(q, orders, k, t + 1) == LeftAfter(Working(QueueAfter(q, orders, k, t), orders[t]), k)
  {}

  /** Every finite set of ids can be listed. */
  lemma ListOf(ids: set<Id>) returns (q: seq<Id>)
    ensures Lists(q, ids)
  {
    q := [];
    var todo := ids;
    while todo != {}
      invariant todo <= ids && (forall id :: id in q <==> id in ids && id !in todo) && |q| + |todo| == |ids|
    {
      var id :| id in todo;
      todo := todo - {id};
      q := q + [id];
    }
  }

  method Pass(p: Proto, before: seq<Between>)
    requires p.Valid()
    modifies p`peers, p`addrStatus, p`outbox, p`triggers, p`numPeers
    ensures p.Valid()
  {
    for i := 0 to |before|
      invariant p.Valid()
    {
      match before[i]
      case Heard(packet, addr, tm, clock) => p.ConsumeGossip(packet, addr, tm, clock);
      case Swept(now) => p.RemoveFailedNodes(now);
    }
  }

  /** The events before one round and the round. */
  method DriveRound(p: Proto, turn: Turn) returns (ghost r: Round)
    requires p.Valid()
    modifies p
    ensures p.Valid()
    ensures Lists(r.order, r.known.Keys) && |r.states| == |r.popped| + 1
    ensures RoundSteps(p.c, r.popped, turn.tm, turn.clock, r.known, r.states, r.states[|r.popped|], r.outs)
    ensures r.popped == Popped(Working(old(p.pingQueue), r.order), p.c.numPings)
    ensures p.pingQueue == LeftAfter(Working(old(p.pingQueue), r.order), p.c.numPings)
  {
    hide Lists, RoundSteps, Popped, LeftAfter, PeersKnown, GossipHosts.QueueSound;
    Pass(p, turn.before);
    ghost var known := p.peers;
    ghost var order := ListOf(known.Keys);
    ghost var q, states, outs := p.PingHosts(turn.tm, turn.clock);
    if old(p.pingQueue) == [] {
      order := q;
    }
    StatesLength(p.c, Popped(q, p.c.numPings), turn.tm, turn.clock, known, states, p.peers, outs);
    r := Round(known, order, Popped(q, p.c.numPings), states, outs);
  }

  /**
   The node itself through any number of ping rounds, with packets and sweeps in between: its queue
   and the ids each round considers are those of `QueueAfter` and `Considered`.
   */
  method DriveRounds(p: Proto, plan: seq<Turn>) returns (ghost rounds: seq<Round>)
    requires p.Valid()
    modifies p
    ensures p.Valid() && |rounds| == |plan|
    ensures forall t: nat | t < |plan| :: Rounded(p.c, old(p.pingQueue), rounds, plan, t)
    ensures p.pingQueue == QueueAfter(old(p.pingQueue), Orders(rounds), p.c.numPings, |plan|)
  {
    rounds := [];
    for i := 0 to |plan|
      invariant p.Valid() && |rounds| == i
      invariant forall t: nat | t < i :: Rounded(p.c, old(p.pingQueue), rounds, plan, t)
      invariant p.pingQueue == QueueAfter(old(p.pingQueue), Orders(rounds), p.c.numPings, i)
    {
      hide *;
      ghost var r := DriveRound(p, plan[i]);
      RoundsMore(p.c, old(p.pingQueue), rounds, plan, r);
      rounds := rounds + [r];
    }
  }

  lemma StatesLength(c: Config, popped: seq<Id>, tm: int, clock: nat -> int, before: Peers, states: seq<Peers>,
                     after: Peers, outs: seq<seq<Out>>)
    requires RoundSteps(c, popped, tm, clock, before, states, after, outs)
    ensures |states| == |popped| + 1 && states[|popped|] == after
  {}

  /** Step `i` of the round considers `id`. */
  ghost predicate Considers(c: Config, r: Round, turn: Turn, id: Id, i: nat) {
    && |r.states| == |r.popped| + 1 && |r.outs| == |r.popped|
    && i < |r.popped| && r.popped[i] == id
    && PingStep(c, r.states[i], id, turn.tm, turn.clock(2 * i), turn.clock(2 * i + 1), r.states[i + 1], r.outs[i])
  }

  /**
   A peer known whenever a round begins is considered within the rounds that empty the present queue
   and those that work off the next one.
   */
  lemma RoundsConsider(c: Config, q: seq<Id>, rounds: seq<Round>, plan: seq<Turn>, id: Id)
    requires |rounds| == |plan| && c.numPings > 0 && Calls(|q|, c.numPings) < |plan|
    requires forall t: nat | t < |plan| :: Rounded(c, q, rounds, plan, t) && id in rounds[t].known
    requires var c1 := Calls(|q|, c.numPings); c1 + Calls(|rounds[c1].known|, c.numPings) <= |plan|
    ensures exists t: nat, i: nat :: t < |plan| && Considers(c, rounds[t], plan[t], id, i)
  {
    hide Calls, Considered, PingStep, Considers;
    var k, c1 := c.numPings, Calls(|q|, c.numPings);
    var orders := Orders(rounds);
    assert Rounded(c, q, rounds, plan, c1);
    forall t: nat | t < |plan| ensures id in orders[t] {
      assert Rounded(c, q, rounds, plan, t);
    }
    StaysKnownIsConsidered(q, orders, k, id, c1, Calls(|orders[c1]|, k));
    var t :| 0 <= t < |plan| && id in Considered(q, orders, k, t);
    assert Rounded(c, q, rounds, plan, t);
    IdIsConsidered(c, rounds[t], plan[t], id);
  }

  lemma IdIsConsidered(c: Config, r: Round, turn: Turn, id: Id)
    requires id in r.popped && |r.states| == |r.popped| + 1
    requires RoundSteps(c, r.popped, turn.tm, turn.clock, r.known, r.states, r.states[|r.popped|], r.outs)
    ensures exists i: nat :: Considers(c, r, turn, id, i)
  {
    hide PingStep;
    var i :| 0 <= i < |r.popped| && r.popped[i] == id;
    assert Considers(c, r, turn, id, i);
  }
}
