/**
 The two-level subscription index of web socket connections (src/incoming/mod.rs).

 Every connection has its own table, kind -> request id -> query, under its own lock; the hub has
 kind -> connections under another.  `subscribe` and `unsubscribe_id` take the two locks one after
 the other, so other connections run in between; the steps below are the lock sections.
 */
module Subscriptions {
  import opened Wrappers

  datatype Kind = Status | Peers | Scan

  datatype ConnId = ConnId(n: nat)

  type Query = string

  type Own = map<Kind, map<string, Query>>

  /** What a connection still has to do under the hub's lock. */
  datatype Todo = Nothing | Register(kind: Kind) | Unregister(kind: Kind)

  datatype Hub = Hub(
    connections: set<ConnId>,
    global: map<Kind, set<ConnId>>,
    own: map<ConnId, Own>,
    todo: map<ConnId, Todo>)

  const NewHub := Hub({}, map[], map[], map[])

  function Requests(o: Own, k: Kind): map<string, Query> {
    if k in o then o[k] else map[]
  }

  function Registered(h: Hub, k: Kind): set<ConnId> {
    if k in h.global then h.global[k] else {}
  }

  // ---------------------------------------------------------------- the lock sections

  function Connected(h: Hub, c: ConnId): Hub {
    Hub(h.connections + {c}, h.global, h.own[c := map[]], h.todo[c := Nothing])
  }

  function OwnWith(o: Own, k: Kind, id: string, q: Query): Own {
    o[k := Requests(o, k)[id := q]]
  }

  function GlobalWith(g: map<Kind, set<ConnId>>, k: Kind, c: ConnId): map<Kind, set<ConnId>> {
    g[k := (if k in g then g[k] else {}) + {c}]
  }

  /** A kind without connections is not kept. */
  function GlobalWithout(g: map<Kind, set<ConnId>>, k: Kind, c: ConnId): map<Kind, set<ConnId>> {
    if k !in g then g
    else if g[k] - {c} == {} then g - {k}
    else g[k := g[k] - {c}]
  }

  function Forgotten(g: map<Kind, set<ConnId>>, c: ConnId): map<Kind, set<ConnId>> {
    map k | k in g && g[k] - {c} != {} :: g[k] - {c}
  }

  /** `Connection::unsubscribe_id` at the kind `k` its iteration met first; the table stays, even empty. */
  function OwnWithout(o: Own, k: Kind, id: string): Own
    requires k in o
  {
    o[k := o[k] - {id}]
  }

  ghost predicate MayDrop(o: Own, id: string, k: Kind) {
    k in o && id in o[k]
  }

  // ---------------------------------------------------------------- steps of a run

  datatype Step =
    | Connect(c: ConnId)
    | SubscribeOwn(c: ConnId, k: Kind, id: string, q: Query)
    | SubscribeHub(c: ConnId)
    | UnsubscribeOwn(c: ConnId, id: string, found: Option<Kind>)
    | UnsubscribeHub(c: ConnId)
    | Drop(c: ConnId)

  /** A connection's own calls come one at a time; its token is dropped after the last of them. */
  ghost predicate Enabled(h: Hub, s: Step) {
    if s.Connect? then s.c !in h.connections
    else
      && s.c in h.connections && s.c in h.own && s.c in h.todo
      && match s
         case SubscribeHub(c) => h.todo[c].Register?
         case UnsubscribeHub(c) => h.todo[c].Unregister?
         case UnsubscribeOwn(c, id, Some(k)) => h.todo[c] == Nothing && MayDrop(h.own[c], id, k)
         case UnsubscribeOwn(c, id, None) => h.todo[c] == Nothing && forall k :: !MayDrop(h.own[c], id, k)
         case _ => h.todo[s.c] == Nothing
  }

  function After(h: Hub, s: Step): Hub
    requires s.Connect? || (s.c in h.own && s.c in h.todo)
    requires s.UnsubscribeOwn? && s.found.Some? ==> s.found.value in h.own[s.c]
  {
    match s
    case Connect(c) => Connected(h, c)
    case SubscribeOwn(c, k, id, q) =>
      h.(own := h.own[c := OwnWith(h.own[c], k, id, q)], todo := h.todo[c := Register(k)])
    case SubscribeHub(c) =>
      if !h.todo[c].Register? then h
      else h.(global := GlobalWith(h.global, h.todo[c].kind, c), todo := h.todo[c := Nothing])
    case UnsubscribeOwn(c, id, found) =>
      (match found
       case None => h
       case Some(k) =>
         var o := OwnWithout(h.own[c], k, id);
         h.(own := h.own[c := o], todo := h.todo[c := if o[k] == map[] then Unregister(k) else Nothing]))
    case UnsubscribeHub(c) =>
      if !h.todo[c].Unregister? then h
      else h.(global := GlobalWithout(h.global, h.todo[c].kind, c), todo := h.todo[c := Nothing])
    case Drop(c) => Hub(h.connections - {c}, Forgotten(h.global, c), h.own, h.todo)
  }

  // ---------------------------------------------------------------- the invariant

  /** One connection and one kind: registered iff it has requests, up to what it is about to do. */
  predicate Agrees(h: Hub, c: ConnId, k: Kind)
    requires c in h.own && c in h.todo
  {
    var has := Requests(h.own[c], k) != map[];
    match h.todo[c]
    case Register(k') => if k == k' then has else (c in Registered(h, k) <==> has)
    case Unregister(k') => if k == k' then !has && c in Registered(h, k) else (c in Registered(h, k) <==> has)
    case Nothing => c in Registered(h, k) <==> has
  }

  ghost predicate Indexed(h: Hub) {
    && h.connections <= h.own.Keys && h.connections <= h.todo.Keys
    && (forall k | k in h.global :: h.global[k] != {} && h.global[k] <= h.connections)
    && (forall c, k | c in h.connections :: Agrees(h, c, k))
  }

  lemma StepKeepsIndex(h: Hub, s: Step)
    requires Indexed(h) && Enabled(h, s)
    ensures Indexed(After(h, s))
  {
    var h' := After(h, s);
    assert s.SubscribeOwn? ==> s.id in Requests(h'.own[s.c], s.k);
    forall c, k | c in h'.connections ensures c in h'.own && c in h'.todo && Agrees(h', c, k) {
      assert c in h.connections ==> Agrees(h, c, k);
    }
  }

  /** A run of lock sections, each enabled when it happens, from the empty hub. */
  ghost predicate IsRun(hubs: seq<Hub>, steps: seq<Step>) {
    && |hubs| == |steps| + 1 && hubs[0] == NewHub
    && forall i | 0 <= i < |steps| :: Enabled(hubs[i], steps[i]) && hubs[i + 1] == After(hubs[i], steps[i])
  }

  /** Over every interleaving of the calls of all connections the index agrees. */
  lemma {:induction false} RunsKeepIndex(hubs: seq<Hub>, steps: seq<Step>, i: nat)
    requires IsRun(hubs, steps) && i <= |steps|
    ensures Indexed(hubs[i])
  {
    if i > 0 {
      RunsKeepIndex(hubs, steps, i - 1);
      StepKeepsIndex(hubs[i - 1], steps[i - 1]);
    }
  }

  // ---------------------------------------------------------------- what a trigger sends

  /** The requests one trigger of `k` answers. */
  predicate Answered(h: Hub, k: Kind, c: ConnId, id: string) {
    c in Registered(h, k) && c in h.own && id in Requests(h.own[c], k)
  }

  /** While no call is between its locks, a trigger answers exactly the requests of live connections. */
  lemma TriggerReachesAll(h: Hub, k: Kind, c: ConnId, id: string)
    requires Indexed(h) && forall x | x in h.connections :: h.todo[x] == Nothing
    ensures Answered(h, k, c, id) <==> c in h.connections && id in Requests(h.own[c], k)
  {
    assert c in h.connections ==> Agrees(h, c, k);
  }

  type Packet = (ConnId, string, Query)

  /** `packets` are those of a trigger of `k` for the connections in `done`, each once. */
  ghost predicate PacketsFor(packets: seq<Packet>, own: map<ConnId, Own>, done: set<ConnId>, k: Kind) {
    && (forall i, j | 0 <= i < j < |packets| :: (packets[i].0, packets[i].1) != (packets[j].0, packets[j].1))
    && (forall c, id, q :: (c, id, q) in packets <==>
          c in done && c in own && id in Requests(own[c], k) && Requests(own[c], k)[id] == q)
  }

  /** There is exactly one packet for the request, carrying `q`. */
  predicate SentOnce(packets: seq<Packet>, c: ConnId, id: string, q: Query) {
    exists j | 0 <= j < |packets| :: packets[j] == (c, id, q) && OnlyAt(packets, c, id, j)
  }

  predicate OnlyAt(packets: seq<Packet>, c: ConnId, id: string, j: nat) {
    forall i | 0 <= i < |packets| && i != j :: (packets[i].0, packets[i].1) != (c, id)
  }

  lemma HeldIsSentOnce(packets: seq<Packet>, own: map<ConnId, Own>, c: ConnId, k: Kind, id: string)
    requires PacketsFor(packets, own, {c}, k) && c in own && id in Requests(own[c], k)
    ensures SentOnce(packets, c, id, Requests(own[c], k)[id])
  {
    var q := Requests(own[c], k)[id];
    assert (c, id, q) in packets;
    var j :| 0 <= j < |packets| && packets[j] == (c, id, q);
    assert OnlyAt(packets, c, id, j);
  }

  /** Over a run a connection's own table stays, also after it is dropped. */
  lemma {:induction false} OwnStays(hubs: seq<Hub>, steps: seq<Step>, i: nat, j: nat, c: ConnId)
    requires IsRun(hubs, steps) && i <= j <= |steps| && c in hubs[i].own
    ensures c in hubs[j].own
    decreases j
  {
    if i < j {
      OwnStays(hubs, steps, i, j - 1, c);
      assert hubs[j - 1 + 1] == After(hubs[j - 1], steps[j - 1]);
    }
  }

  /**
   A trigger that other calls run between: it reads the registered connections at hub `i`; the turn
   of `c` comes at hub `when[c]` and sends `packets[c]`, as `TriggerSend` does.
   */
  ghost predicate TriggerRun(hubs: seq<Hub>, k: Kind, i: nat, when: map<ConnId, nat>,
                             packets: map<ConnId, seq<Packet>>)
    requires i < |hubs|
  {
    && when.Keys == packets.Keys == Registered(hubs[i], k)
    && forall c | c in when :: i <= when[c] < |hubs| && PacketsFor(packets[c], hubs[when[c]].own, {c}, k)
  }

  /**
   Whatever runs in between, a request of a connection at rest that is there when the trigger starts
   and still there at the connection's turn is answered exactly once; a connection that is gone when
   the trigger starts gets nothing, and nothing is sent but requests there at the turn.
   */
  lemma TriggerInterleaved(hubs: seq<Hub>, steps: seq<Step>, k: Kind, i: nat, when: map<ConnId, nat>,
                           packets: map<ConnId, seq<Packet>>)
    requires IsRun(hubs, steps) && i <= |steps| && TriggerRun(hubs, k, i, when, packets)
    ensures forall c, id |
      && c in hubs[i].connections && c in hubs[i].todo && c in hubs[i].own
      && hubs[i].todo[c] == Nothing && id in Requests(hubs[i].own[c], k) ::
      && c in packets && c in hubs[when[c]].own
      && (id in Requests(hubs[when[c]].own[c], k) ==>
            SentOnce(packets[c], c, id, Requests(hubs[when[c]].own[c], k)[id]))
    ensures forall c | c !in hubs[i].connections :: c !in packets
    ensures forall c, p | c in packets && p in packets[c] ::
      p.0 == c && c in hubs[when[c]].own && p.1 in Requests(hubs[when[c]].own[c], k)
  {
    RunsKeepIndex(hubs, steps, i);
    forall c, id |
      && c in hubs[i].connections && c in hubs[i].todo && c in hubs[i].own
      && hubs[i].todo[c] == Nothing && id in Requests(hubs[i].own[c], k)
      ensures c in packets && c in hubs[when[c]].own
      ensures id in Requests(hubs[when[c]].own[c], k) ==>
        SentOnce(packets[c], c, id, Requests(hubs[when[c]].own[c], k)[id])
    {
      assert Agrees(hubs[i], c, k);
      OwnStays(hubs, steps, i, when[c], c);
      if id in Requests(hubs[when[c]].own[c], k) {
        HeldIsSentOnce(packets[c], hubs[when[c]].own, c, k, id);
      }
    }
    forall c, p | c in packets && p in packets[c]
      ensures p.0 == c && c in hubs[when[c]].own && p.1 in Requests(hubs[when[c]].own[c], k)
    {
      var (x, id, q) := p;
      assert (x, id, q) in packets[c];
    }
    hide IsRun, Requests, PacketsFor, SentOnce;
  }

  /** Subscribing, both sections, makes the new request answered and changes no other answer. */
  lemma StartedIsAnswered(h: Hub, c: ConnId, k: Kind, id: string, q: Query)
    requires Indexed(h) && Enabled(h, SubscribeOwn(c, k, id, q))
    ensures var mid := After(h, SubscribeOwn(c, k, id, q));
      && Enabled(mid, SubscribeHub(c))
      && var h' := After(mid, SubscribeHub(c));
         && Answered(h', k, c, id) && Requests(h'.own[c], k)[id] == q
         && forall k', c', id' | (k', c', id') != (k, c, id) :: Answered(h', k', c', id') <==> Answered(h, k', c', id')
  {
    forall k' ensures c in Registered(h, k') <==> Requests(h.own[c], k') != map[] {
      assert Agrees(h, c, k');
    }
    hide Agrees;
  }

  /** A dropped connection is gone from every kind. */
  lemma DroppedIsSilent(h: Hub, c: ConnId, k: Kind, id: string)
    requires Indexed(h) && Enabled(h, Drop(c))
    ensures !Answered(After(h, Drop(c)), k, c, id)
    ensures forall x, i | x != c :: Answered(After(h, Drop(c)), k, x, i) <==> Answered(h, k, x, i)
  {}

  /** The kinds under which a connection knows a request id. */
  function KindsOf(o: Own, id: string): set<Kind> {
    set k | k in o && id in o[k]
  }

  /** Both lock sections of stopping, when the kind met first is `k`. */
  function Stopped(h: Hub, c: ConnId, id: string, k: Kind): Hub
    requires c in h.own && c in h.todo && k in h.own[c]
  {
    var mid := After(h, UnsubscribeOwn(c, id, Some(k)));
    if mid.todo[c].Unregister? then After(mid, UnsubscribeHub(c)) else mid
  }

  lemma StopKeepsOthers(h: Hub, c: ConnId, id: string, k: Kind, k': Kind, c': ConnId, id': string)
    requires Indexed(h) && Enabled(h, UnsubscribeOwn(c, id, Some(k))) && Indexed(Stopped(h, c, id, k))
    requires (c', id') != (c, id)
    ensures Answered(Stopped(h, c, id, k), k', c', id') <==> Answered(h, k', c', id')
  {
    var h' := Stopped(h, c, id, k);
    if c' == c {
      hide Stopped, Enabled;
      assert Agrees(h, c, k') && Agrees(h', c, k');
      StopKeepsOwn(h, c, id, k, k', id');
    } else {
      hide Indexed, Agrees;
      assert c' in Registered(h', k') <==> c' in Registered(h, k');
    }
  }

  lemma StopKeepsOwn(h: Hub, c: ConnId, id: string, k: Kind, k': Kind, id': string)
    requires Enabled(h, UnsubscribeOwn(c, id, Some(k))) && id' != id
    ensures c in h.own && c in Stopped(h, c, id, k).own
    ensures id' in Requests(Stopped(h, c, id, k).own[c], k') <==> id' in Requests(h.own[c], k')
  {}

  /**
   Stopping takes a request out of the kind met first only: it is answered afterwards for exactly the
   other kinds it was known under, so it is silent if and only if there were none.
   */
  lemma StopSilencesOneKind(h: Hub, c: ConnId, id: string, k: Kind)
    requires Indexed(h) && Enabled(h, UnsubscribeOwn(c, id, Some(k)))
    ensures var h' := Stopped(h, c, id, k);
      && Indexed(h') && c in h'.todo && h'.todo[c] == Nothing
      && (forall k' :: Answered(h', k', c, id) <==> k' in KindsOf(h.own[c], id) && k' != k)
      && ((forall k' :: !Answered(h', k', c, id)) <==> KindsOf(h.own[c], id) == {k})
      && (forall k', c', id' | (c', id') != (c, id) :: Answered(h', k', c', id') <==> Answered(h, k', c', id'))
  {
    var mid, h' := After(h, UnsubscribeOwn(c, id, Some(k))), Stopped(h, c, id, k);
    StepKeepsIndex(h, UnsubscribeOwn(c, id, Some(k)));
    if mid.todo[c].Unregister? {
      StepKeepsIndex(mid, UnsubscribeHub(c));
    }
    forall k' ensures Answered(h', k', c, id) <==> k' in KindsOf(h.own[c], id) && k' != k {
      assert Agrees(h', c, k');
    }
    forall k', c', id' | (c', id') != (c, id) ensures Answered(h', k', c', id') <==> Answered(h, k', c', id') {
      StopKeepsOthers(h, c, id, k, k', c', id');
    }
    hide Indexed, Agrees, Answered, After;
  }

  /** A run of these lock sections leads to `h`. */
  ghost predicate Reaches(steps: seq<Step>, h: Hub) {
    exists hubs :: IsRun(hubs, steps) && hubs[|steps|] == h
  }

  lemma ReachesMore(steps: seq<Step>, h: Hub, s: Step)
    requires Reaches(steps, h) && Enabled(h, s)
    ensures Indexed(h) && Reaches(steps + [s], After(h, s))
  {
    var hubs :| IsRun(hubs, steps) && hubs[|steps|] == h;
    RunsKeepIndex(hubs, steps, |steps|);
    assert IsRun(hubs + [After(h, s)], steps + [s]);
  }

  /** One id started for two kinds. */
  function TwiceSteps(c: ConnId, id: string, q: Query): seq<Step> {
    [Connect(c)] + [SubscribeOwn(c, Status, id, q)] + [SubscribeHub(c)] + [SubscribeOwn(c, Peers, id, q)]
    + [SubscribeHub(c)]
  }

  /** And then stopped. */
  function LeavingSteps(c: ConnId, id: string, q: Query): seq<Step> {
    TwiceSteps(c, id, q) + [UnsubscribeOwn(c, id, Some(Status))] + [UnsubscribeHub(c)]
  }

  function StartedTwice(c: ConnId, id: string, q: Query): Hub {
    Hub({c}, map[Status := {c}, Peers := {c}], map[c := map[Status := map[id := q], Peers := map[id := q]]],
        map[c := Nothing])
  }

  /** The hub in the end: the id is still known, and the connection still registered, for the second kind. */
  function LeftOver(c: ConnId, id: string, q: Query): Hub {
    Hub({c}, map[Peers := {c}], map[c := map[Status := map[], Peers := map[id := q]]], map[c := Nothing])
  }

  /** So a request is still answered after it was stopped. */
  lemma StopCanLeaveARequest(c: ConnId, id: string, q: Query)
    ensures Reaches(LeavingSteps(c, id, q), LeftOver(c, id, q))
    ensures Answered(LeftOver(c, id, q), Peers, c, id)
  {
    var h := StartedTwice(c, id, q);
    StartedTwiceReached(c, id, q);
    hide Reaches, Indexed, TwiceSteps;
    var step := UnsubscribeOwn(c, id, Some(Status));
    StoppedOnce(c, id, q);
    ReachesMore(TwiceSteps(c, id, q), h, step);
    ReachesMore(TwiceSteps(c, id, q) + [step], After(h, step), UnsubscribeHub(c));
  }

  lemma StoppedOnce(c: ConnId, id: string, q: Query)
    ensures var h := StartedTwice(c, id, q); var mid := After(h, UnsubscribeOwn(c, id, Some(Status)));
      && mid.todo[c] == Unregister(Status) && c in mid.connections && c in mid.own
      && After(mid, UnsubscribeHub(c)) == LeftOver(c, id, q)
  {
    var h := StartedTwice(c, id, q);
    var mid := After(h, UnsubscribeOwn(c, id, Some(Status)));
    var o := map[Status := map[], Peers := map[id := q]];
    assert map[id := q] - {id} == map[];
    assert OwnWithout(h.own[c], Status, id) == o;
    assert mid == Hub({c}, h.global, map[c := o], map[c := Unregister(Status)]);
    assert h.global[Status] - {c} == {};
    assert GlobalWithout(h.global, Status, c) == map[Peers := {c}];
  }

  lemma StartedTwiceReached(c: ConnId, id: string, q: Query)
    ensures Reaches(TwiceSteps(c, id, q), StartedTwice(c, id, q))
  {
    var h := Connected(NewHub, c);
    assert IsRun([NewHub], []);
    hide IsRun, Indexed;
    assert Reaches([], NewHub);
    ReachesMore([], NewHub, Connect(c));
    assert [] + [Connect(c)] == [Connect(c)];
    hide Reaches;
    var h1 := Hub({c}, map[Status := {c}], map[c := map[Status := map[id := q]]], map[c := Nothing]);
    assert {} + {c} == {c};
    assert GlobalWith(map[], Status, c) == h1.global;
    assert OwnWith(map[], Status, id, q) == h1.own[c];
    StartedRuns([Connect(c)], h, c, Status, id, q, h1);
    assert GlobalWith(h1.global, Peers, c) == StartedTwice(c, id, q).global;
    assert OwnWith(h1.own[c], Peers, id, q) == StartedTwice(c, id, q).own[c];
    StartedRuns([Connect(c)] + [SubscribeOwn(c, Status, id, q)] + [SubscribeHub(c)], h1, c, Peers, id, q,
                StartedTwice(c, id, q));
  }

  /** Both lock sections of subscribing. */
  lemma StartedRuns(steps: seq<Step>, h: Hub, c: ConnId, k: Kind, id: string, q: Query, h': Hub)
    requires Reaches(steps, h) && Enabled(h, SubscribeOwn(c, k, id, q))
    requires h' == Hub(h.connections, GlobalWith(h.global, k, c), h.own[c := OwnWith(h.own[c], k, id, q)],
                       h.todo[c := Nothing])
    ensures Reaches(steps + [SubscribeOwn(c, k, id, q)] + [SubscribeHub(c)], h')
  {
    hide Reaches, Indexed;
    ReachesMore(steps, h, SubscribeOwn(c, k, id, q));
    var mid := After(h, SubscribeOwn(c, k, id, q));
    ReachesMore(steps + [SubscribeOwn(c, k, id, q)], mid, SubscribeHub(c));
    assert mid.todo[c := Nothing] == h.todo[c := Nothing];
  }

  // ---------------------------------------------------------------- the object

  lemma PacketsJoin(a: seq<Packet>, b: seq<Packet>, own: map<ConnId, Own>, done: set<ConnId>, c: ConnId, k: Kind)
    requires c !in done && PacketsFor(a, own, done, k) && PacketsFor(b, own, {c}, k)
    ensures PacketsFor(a + b, own, done + {c}, k)
  {
    forall i, j | 0 <= i < j < |a + b| ensures ((a + b)[i].0, (a + b)[i].1) != ((a + b)[j].0, (a + b)[j].1) {
      if i < |a| <= j {
        OnlyFor(a, own, done, k, i);
        OnlyFor(b, own, {c}, k, j - |a|);
      }
    }
    forall x, id, q ensures (x, id, q) in a + b <==> (x, id, q) in a || (x, id, q) in b {}
  }

  lemma OnlyFor(packets: seq<Packet>, own: map<ConnId, Own>, done: set<ConnId>, k: Kind, i: nat)
    requires PacketsFor(packets, own, done, k) && i < |packets|
    ensures packets[i].0 in done
  {
    var (x, id, q) := packets[i];
    assert (x, id, q) in packets;
  }

  class Incoming {
    var connections: set<ConnId>
    var global: map<Kind, set<ConnId>>
    var own: map<ConnId, Own>                       // each connection's own state
    var nextId: nat
    var sent: seq<Packet>                           // oldest first
    ghost var todo: map<ConnId, Todo>

    ghost function State(): Hub
      reads this
    {
      Hub(connections, global, own, todo)
    }

    constructor ()
      ensures State() == NewHub && sent == []
    {
      connections := {};
      global := map[];
      own := map[];
      nextId := 0;
      sent := [];
      todo := map[];
    }

    /** Ids are drawn until one is free. */
    method Connect() returns (c: ConnId)
      modifies this`connections, this`own, this`nextId, this`todo
      ensures c !in old(connections)
      ensures State() == After(old(State()), Step.Connect(c))
    {
      ghost var above := set x | x in connections && x.n >= nextId;
      while true
        invariant State() == old(State())
        invariant above == set x | x in connections && x.n >= nextId
        decreases above
      {
        var id := ConnId(nextId);
        nextId := nextId + 1;
        if id !in connections {
          c := id;
          break;
        }
        above := above - {id};
      }
      connections := connections + {c};
      own := own[c := map[]];
      todo := todo[c := Nothing];
    }

    method SubscribeOwn(c: ConnId, k: Kind, id: string, q: Query)
      requires Enabled(State(), Step.SubscribeOwn(c, k, id, q))
      modifies this`own, this`todo
      ensures State() == After(old(State()), Step.SubscribeOwn(c, k, id, q))
    {
      var o := own[c];
      if k !in o {
        o := o[k := map[]];
      }
      o := o[k := o[k][id := q]];
      own := own[c := o];
      todo := todo[c := Register(k)];
      assert o == OwnWith(old(own)[c], k, id, q);
    }

    method SubscribeHub(c: ConnId, k: Kind)
      requires Enabled(State(), Step.SubscribeHub(c)) && todo[c] == Register(k)
      modifies this`global, this`todo
      ensures State() == After(old(State()), Step.SubscribeHub(c))
    {
      if k !in global {
        global := global[k := {}];
      }
      global := global[k := global[k] + {c}];
      todo := todo[c := Nothing];
      assert global == GlobalWith(old(global), k, c);
    }

    /** The kinds are met in any order; the first that knows the id is the only one changed. */
    method UnsubscribeOwn(c: ConnId, id: string) returns (emptied: Option<Kind>, ghost found: Option<Kind>)
      requires c in connections && c in own && c in todo && todo[c] == Nothing
      modifies this`own, this`todo
      ensures Enabled(old(State()), Step.UnsubscribeOwn(c, id, found))
      ensures State() == After(old(State()), Step.UnsubscribeOwn(c, id, found))
      ensures emptied == if todo[c].Unregister? then Some(todo[c].kind) else None
    {
      var kinds := own[c].Keys;
      while kinds != {}
        invariant State() == old(State())
        invariant kinds <= own[c].Keys
        invariant forall k | k in own[c] && k !in kinds :: id !in own[c][k]
        decreases kinds
      {
        var k :| k in kinds;
        kinds := kinds - {k};
        if id in own[c][k] {
          own := own[c := own[c][k := own[c][k] - {id}]];
          found := Some(k);
          if own[c][k] == map[] {
            todo := todo[c := Unregister(k)];
            return Some(k), found;
          }
          todo := todo[c := Nothing];
          return None, found;
        }
      }
      return None, None;
    }

    method UnsubscribeHub(c: ConnId, k: Kind)
      requires Enabled(State(), Step.UnsubscribeHub(c)) && todo[c] == Unregister(k)
      modifies this`global, this`todo
      ensures State() == After(old(State()), Step.UnsubscribeHub(c))
    {
      var remove := false;
      if k in global {
        global := global[k := global[k] - {c}];
        remove := global[k] == {};
      }
      if remove {
        global := global - {k};
      }
      todo := todo[c := Nothing];
      assert global == GlobalWithout(old(global), k, c);
    }

    /** Dropping the token: one lock section that also clears every kind. */
    method DropToken(c: ConnId)
      requires Enabled(State(), Step.Drop(c))
      modifies this`connections, this`global
      ensures State() == After(old(State()), Step.Drop(c))
    {
      connections := connections - {c};
      var kept: map<Kind, set<ConnId>> := map[];
      var kinds := global.Keys;
      while kinds != {}
        invariant kinds <= global.Keys && global == old(global) && connections == old(connections) - {c}
        invariant forall k :: k in kept <==> k in global && k !in kinds && global[k] - {c} != {}
        invariant forall k | k in kept :: kept[k] == global[k] - {c}
        decreases kinds
      {
        var k :| k in kinds;
        kinds := kinds - {k};
        var v := global[k] - {c};
        if v != {} {
          kept := kept[k := v];
        }
      }
      global := kept;
      assert global == Forgotten(old(global), c);
    }

    /** The trigger's first lock section: the connections registered at that moment. */
    method TriggerHub(k: Kind) returns (conns: set<ConnId>)
      ensures conns == Registered(State(), k)
    {
      conns := if k in global then global[k] else {};
    }

    /** Its section for one connection: a packet for each request there at that moment, once each. */
    method TriggerSend(c: ConnId, k: Kind)
      requires c in own
      modifies this`sent
      ensures old(sent) <= sent
      ensures PacketsFor(sent[|old(sent)|..], own, {c}, k)
    {
      ghost var before := sent;
      var packets := SendAll([], {}, k, c);
      sent := sent + packets;
      assert sent[|before|..] == packets;
      assert {} + {c} == {c};
    }

    /** A trigger with no other call in between: one packet for every registered connection and request. */
    method Trigger(k: Kind)
      requires Indexed(State())
      modifies this`sent
      ensures old(sent) <= sent
      ensures var packets := sent[|old(sent)|..];
        && (forall i, j | 0 <= i < j < |packets| :: (packets[i].0, packets[i].1) != (packets[j].0, packets[j].1))
        && (forall c, id, q :: (c, id, q) in packets <==> Answered(State(), k, c, id) && Requests(own[c], k)[id] == q)
    {
      var conns := TriggerHub(k);
      ghost var before := sent;
      ghost var done: set<ConnId> := {};
      while conns != {}
        invariant before <= sent && conns !! done && conns + done == Registered(State(), k)
        invariant PacketsFor(sent[|before|..], own, done, k)
        decreases conns
      {
        var c :| c in conns;
        assert c in connections;
        ghost var earlier := sent;
        TriggerSend(c, k);
        PacketsJoin(earlier[|before|..], sent[|earlier|..], own, done, c, k);
        assert sent[|before|..] == earlier[|before|..] + sent[|earlier|..];
        conns := conns - {c};
        done := done + {c};
      }
    }

    method SendAll(packets: seq<Packet>, ghost done: set<ConnId>, k: Kind, c: ConnId) returns (more: seq<Packet>)
      requires c in own && c !in done && PacketsFor(packets, own, done, k)
      ensures PacketsFor(more, own, done + {c}, k)
    {
      more := packets;
      var items := if k in own[c] then own[c][k] else map[];
      var todoIds := items.Keys;
      while todoIds != {}
        invariant todoIds <= items.Keys && items == Requests(own[c], k)
        invariant forall i, j | 0 <= i < j < |more| :: (more[i].0, more[i].1) != (more[j].0, more[j].1)
        invariant forall x, id, q :: (x, id, q) in more <==>
          (x in done && x in own && id in Requests(own[x], k) && Requests(own[x], k)[id] == q)
          || (x == c && id in items && id !in todoIds && items[id] == q)
        decreases todoIds
      {
        var id :| id in todoIds;
        todoIds := todoIds - {id};
        more := more + [(c, id, items[id])];
      }
    }
  }
}
