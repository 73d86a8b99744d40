/**
  Delivery under the publication gate. Any number of publishers queue at the gate, each running its
  own publication once it is let in and without looking at the others. Mutual exclusion makes every
  such interleaving a run of the serial machine in `Delivery`.
*/
module GatedDelivery {
  import opened Wrappers
  import opened Subscriptions
  import opened Delivery
  import Gate = PublicationGate
  import DeliveryHistory

  /** `hub.publication` is unused: `publications` holds one entry per ticket whose publication is running. */
  datatype System = System(session: string, gates: Gate.Gates, hub: Hub, publications: map<nat, Publication>)

  datatype SystemStep =
    | AtGate(gate: Gate.Step)
    | AtHub(hub: Step)
    | PublishAs(ticket: nat, publisher: PublisherStep)

  /** The Hub as one publisher sees it: its own publication and nobody else's. */
  function ViewOf(sys: System, ticket: nat): Hub {
    sys.hub.(publication := if ticket in sys.publications then Some(sys.publications[ticket]) else None)
  }

  predicate Holds(sys: System, ticket: nat) {
    Gate.PhaseIs(sys.gates, ticket, Gate.Holding) && sys.gates.tickets[ticket].session == sys.session
  }

  predicate Enabled(sys: System, step: SystemStep) {
    match step
    case AtGate(g) => Gate.Enabled(sys.gates, g) && (g.Release? ==> g.ticket !in sys.publications)
    case AtHub(h) => !h.Publish? && Delivery.Enabled(sys.hub, h)
    case PublishAs(t, p) => Holds(sys, t) && PublisherEnabled(ViewOf(sys, t), p)
  }

  function Next(sys: System, step: SystemStep): System
    requires Enabled(sys, step)
  {
    match step
    case AtGate(g) => sys.(gates := Gate.Apply(sys.gates, g))
    case AtHub(h) => sys.(hub := Delivery.Next(sys.hub, h))
    case PublishAs(t, p) =>
      var view := PublisherNext(ViewOf(sys, t), p);
      sys.(hub := view.(publication := None),
           publications := if view.publication.Some? then sys.publications[t := view.publication.value]
                           else sys.publications - {t})
  }

  /** The serial machine this system stands for. */
  ghost function Serial(sys: System): Hub {
    sys.hub.(publication := if sys.publications == map[] then None
                            else Some(sys.publications[SomeTicket(sys.publications)]))
  }

  ghost function SomeTicket(publications: map<nat, Publication>): nat
    requires publications != map[]
    ensures SomeTicket(publications) in publications
  {
    assert exists t :: t in publications by {
      assert publications.Keys != {};
    }
    var t :| t in publications;
    t
  }

  ghost predicate SystemOk(sys: System) {
    && Gate.Valid(sys.gates)
    && (forall t :: t in sys.publications ==> Holds(sys, t))
    && HubOk(Serial(sys))
  }

  lemma AtMostOnePublication(sys: System, t: nat, u: nat)
    requires SystemOk(sys) && Holds(sys, t) && u in sys.publications
    ensures u == t
  {
    assert Gate.Ahead(sys.gates, t, u) || Gate.Ahead(sys.gates, u, t) || t == u;
  }

  lemma SerialView(sys: System, t: nat)
    requires SystemOk(sys) && Holds(sys, t)
    ensures Serial(sys) == ViewOf(sys, t)
    ensures forall u :: u in sys.publications ==> u == t
  {
    forall u | u in sys.publications
      ensures u == t
    {
      AtMostOnePublication(sys, t, u);
    }
  }

  /** The system does `step` and the serial machine does the same step, or stands still at the gate. */
  ghost predicate Simulates(sys: System, step: SystemStep, sys': System)
    requires HubOk(Serial(sys))
  {
    match step
    case AtGate(_) => Serial(sys') == Serial(sys)
    case AtHub(h) => Delivery.Enabled(Serial(sys), h) && Serial(sys') == Delivery.Next(Serial(sys), h)
    case PublishAs(_, p) =>
      Delivery.Enabled(Serial(sys), Publish(p)) && Serial(sys') == Delivery.Next(Serial(sys), Publish(p))
  }

  lemma HolderStays(gates: Gate.Gates, g: Gate.Step, t: nat)
    requires Gate.Enabled(gates, g) && Gate.PhaseIs(gates, t, Gate.Holding) && g != Gate.Release(t)
    ensures Gate.PhaseIs(Gate.Apply(gates, g), t, Gate.Holding)
    ensures Gate.Apply(gates, g).tickets[t].session == gates.tickets[t].session
  {
  }

  lemma GateStepSimulates(sys: System, g: Gate.Step)
    requires SystemOk(sys) && Enabled(sys, AtGate(g))
    ensures SystemOk(Next(sys, AtGate(g))) && Simulates(sys, AtGate(g), Next(sys, AtGate(g)))
  {
    var sys' := Next(sys, AtGate(g));
    Gate.StepKeepsValid(sys.gates, g);
    assert Serial(sys') == Serial(sys);
    forall t | t in sys.publications
      ensures Holds(sys', t)
    {
      HolderStays(sys.gates, g, t);
    }
  }

  lemma HubStepSimulates(sys: System, h: Step)
    requires SystemOk(sys) && Enabled(sys, AtHub(h))
    ensures SystemOk(Next(sys, AtHub(h))) && Simulates(sys, AtHub(h), Next(sys, AtHub(h)))
  {
    var sys' := Next(sys, AtHub(h));
    assert Delivery.Enabled(Serial(sys), h);
    DeliveryHistory.StepKeepsHubOk(Serial(sys), h);
    assert Serial(sys') == Delivery.Next(Serial(sys), h);
  }

  /** Once only ticket `t` publishes, the serial machine is what that ticket sees. */
  lemma SerialAfter(sys: System, t: nat, view: Hub, sys': System)
    requires forall u :: u in sys.publications ==> u == t
    requires sys' == sys.(hub := view.(publication := None),
                          publications := if view.publication.Some? then sys.publications[t := view.publication.value]
                                          else sys.publications - {t})
    ensures Serial(sys') == view && forall u :: u in sys'.publications ==> u == t
  {
    if view.publication.Some? {
      assert sys'.publications.Keys == {t};
    } else {
      assert sys'.publications == map[];
    }
  }

  lemma PublisherStepSimulates(sys: System, t: nat, p: PublisherStep)
    requires SystemOk(sys) && Enabled(sys, PublishAs(t, p))
    ensures SystemOk(Next(sys, PublishAs(t, p))) && Simulates(sys, PublishAs(t, p), Next(sys, PublishAs(t, p)))
  {
    SerialView(sys, t);
    hide HubOk, PublisherNext, PublisherEnabled, Serial, Gate.Valid;
    DeliveryHistory.StepKeepsHubOk(Serial(sys), Publish(p));
    SerialAfter(sys, t, PublisherNext(ViewOf(sys, t), p), Next(sys, PublishAs(t, p)));
  }

  /** Every gated step is a step of the serial machine. */
  lemma StepSimulates(sys: System, step: SystemStep)
    requires SystemOk(sys) && Enabled(sys, step)
    ensures SystemOk(Next(sys, step)) && Simulates(sys, step, Next(sys, step))
  {
    match step
    case AtGate(g) => GateStepSimulates(sys, g);
    case AtHub(h) => HubStepSimulates(sys, h);
    case PublishAs(t, p) => PublisherStepSimulates(sys, t, p);
  }

  // ---- Runs ----

  /** A Hub that just started: a Store with `latest` events, some of them of a filtered type. */
  ghost predicate Initial(sys: System) {
    && sys.gates == Gate.Empty()
    && sys.publications == map[]
    && sys.hub.conns == map[] && sys.hub.registered == {} && sys.hub.publication.None?
    && sys.hub.broadcast == {} && sys.hub.abandoned == {}
    && forall s :: s in sys.hub.hidden ==> s <= sys.hub.latest
  }

  ghost predicate StepsTo(sys: System, sys': System) {
    exists step :: Enabled(sys, step) && sys' == Next(sys, step)
  }

  ghost predicate Execution(trace: seq<System>) {
    && |trace| > 0
    && Initial(trace[0])
    && forall i :: 0 <= i < |trace| - 1 ==> StepsTo(trace[i], trace[i + 1])
  }

  lemma {:induction false} ExecutionOk(trace: seq<System>, n: nat)
    requires Execution(trace) && n < |trace|
    ensures SystemOk(trace[n])
    decreases n
  {
    if n == 0 {
      assert Serial(trace[0]) == trace[0].hub;
    } else {
      hide Next, Enabled, SystemOk;
      ExecutionOk(trace, n - 1);
      assert StepsTo(trace[n - 1], trace[n - 1 + 1]);
      var step :| Enabled(trace[n - 1], step) && trace[n] == Next(trace[n - 1], step);
      StepSimulates(trace[n - 1], step);
    }
  }

  // ---- What a connection's socket carries ----

  /** The unfiltered events numbered above `start` and up to `tip`, in order. */
  function Stream(start: nat, tip: nat, hidden: set<nat>): seq<nat> {
    if tip <= start then [] else Stream(start, tip - 1, hidden) + (if tip in hidden then [] else [tip])
  }

  /** A tidy list whose newest possible event is unfiltered ends with it, and is tidy without it. */
  lemma TidyFront(q: seq<nat>, start: nat, tip: nat, hidden: set<nat>)
    requires Tidy(q, start, tip, hidden, {}) && start < tip && tip !in hidden
    ensures q != [] && q[|q| - 1] == tip && Tidy(q[..|q| - 1], start, tip - 1, hidden, {})
  {
    assert tip in q;
    var k :| 0 <= k < |q| && q[k] == tip;
    assert q[|q| - 1] in q;
    assert k == |q| - 1;
    var front := q[..k];
    forall s | s in front
      ensures start < s <= tip - 1 && s !in hidden
    {
      var j :| 0 <= j < |front| && front[j] == s;
      assert q[j] == s && s in q;
    }
    forall s | start < s <= tip - 1 && s !in hidden
      ensures s in front
    {
      assert s in q;
      var j :| 0 <= j < |q| && q[j] == s;
      assert front[j] == s;
    }
  }

  lemma FirstIsMember(q: seq<nat>)
    ensures q != [] ==> q[0] in q
  {
  }

  lemma {:induction false} TidyIsStream(q: seq<nat>, start: nat, tip: nat, hidden: set<nat>)
    requires Tidy(q, start, tip, hidden, {})
    ensures q == Stream(start, tip, hidden)
    decreases tip
  {
    if tip == start {
      FirstIsMember(q);
    } else if tip in hidden {
      assert Stream(start, tip, hidden) == Stream(start, tip - 1, hidden);
      TidyIsStream(q, start, tip - 1, hidden);
    } else {
      TidyFront(q, start, tip, hidden);
      TidyIsStream(q[..|q| - 1], start, tip - 1, hidden);
      assert q == q[..|q| - 1] + [tip];
    }
  }

  /** The event was abandoned, replay had passed it by, and nothing offered it to the connection in time. */
  ghost predicate Missed(hub: Hub, conn: Conn, s: nat) {
    s in hub.abandoned && conn.yielded < s && !InTime(conn.offers, s)
  }

  lemma SameMissed(hub: Hub, hub': Hub, conn: Conn, s: nat)
    requires hub'.abandoned == hub.abandoned
    ensures Missed(hub, conn, s) <==> Missed(hub', conn, s)
  {
  }

  lemma AbsentIffMissed(hub: Hub, conn: Conn, role: Role, s: nat)
    requires ConnOk(conn, role, hub.latest, hub.hidden, hub.abandoned) && LogOk(conn, role, hub.hidden)
    requires conn.start < s <= conn.tip && s !in hub.hidden
    ensures s !in Seqs(conn.wire) <==> Missed(hub, conn, s)
  {
    hide Seqs, InTime, Own, Owed, Gapless, Advance, Linked;
  }

  /**
    In every run, whatever the interleaving: each connection's durable events rise strictly from its
    hello cursor, are real and unfiltered, and up to the newest one dealt with exactly the missed events
    are absent. The replay buffer stays bounded and its ephemeral index exact.
  */
  lemma DeliveredInOrder(trace: seq<System>, n: nat, c: nat)
    requires Execution(trace) && n < |trace| && c in trace[n].hub.conns
    ensures var hub, conn := trace[n].hub, trace[n].hub.conns[c];
            && Tidy(Seqs(conn.wire), conn.start, conn.tip, hub.hidden, hub.abandoned)
            && (forall s :: conn.start < s <= conn.tip && s !in hub.hidden ==>
                  (s !in Seqs(conn.wire) <==> Missed(hub, conn, s)))
            && (forall s :: s in Seqs(conn.wire) ==> s <= hub.latest)
            && WellFormed(conn.sub)
            && (hub.abandoned == {} ==> Seqs(conn.wire) == Stream(conn.start, conn.tip, hub.hidden))
  {
    ExecutionOk(trace, n);
    var hub := Serial(trace[n]);
    assert ConnOk(hub.conns[c], RoleOf(hub, c), hub.latest, hub.hidden, hub.abandoned);
    assert LogOk(hub.conns[c], RoleOf(hub, c), hub.hidden);
    hide SystemOk, Execution, Seqs, LogOk, Missed;
    forall s | hub.conns[c].start < s <= hub.conns[c].tip && s !in hub.hidden
      ensures s !in Seqs(hub.conns[c].wire) <==> Missed(trace[n].hub, hub.conns[c], s)
    {
      AbsentIffMissed(hub, hub.conns[c], RoleOf(hub, c), s);
      assert Missed(hub, hub.conns[c], s) == Missed(trace[n].hub, hub.conns[c], s) by {
        SameMissed(hub, trace[n].hub, hub.conns[c], s);
      }
    }
    if hub.abandoned == {} {
      TidyIsStream(Seqs(hub.conns[c].wire), hub.conns[c].start, hub.conns[c].tip, hub.hidden);
    }
  }

  /** The connection is subscribed, past its replay, and no publication of the Session is under way. */
  predicate Settled(sys: System, c: nat) {
    c in sys.hub.conns && sys.hub.conns[c].replay.Finished? && c in sys.hub.registered && sys.publications == map[]
  }

  /** A settled connection has been sent everything up to the latest event, except what it missed. */
  lemma SettledIsCaughtUp(trace: seq<System>, n: nat, c: nat)
    requires Execution(trace) && n < |trace| && Settled(trace[n], c)
    ensures var hub, conn := trace[n].hub, trace[n].hub.conns[c];
            && (forall s :: conn.start < s <= hub.latest && s !in hub.hidden ==>
                  (s !in Seqs(conn.wire) <==> Missed(hub, conn, s)))
            && (hub.abandoned == {} ==> Seqs(conn.wire) == Stream(conn.start, hub.latest, hub.hidden))
  {
    ExecutionOk(trace, n);
    var hub := Serial(trace[n]);
    var conn := hub.conns[c];
    assert LogOk(conn, RoleOf(hub, c), hub.hidden);
    SettledConn(hub, conn, RoleOf(hub, c));
    hide SystemOk, Missed, LogOk;
    if hub.abandoned == {} {
      DeliveredInOrder(trace, n, c);
      StreamStops(conn.start, hub.latest, conn.tip, hub.hidden, Seqs(conn.wire));
    }
  }

  lemma SettledConn(hub: Hub, conn: Conn, role: Role)
    requires ConnOk(conn, role, hub.latest, hub.hidden, hub.abandoned) && LogOk(conn, role, hub.hidden)
    requires conn.replay.Finished? && role == Role(true, NoHead, [])
    ensures forall s :: conn.start < s <= hub.latest && s !in hub.hidden ==>
              (s !in Seqs(conn.wire) <==> Missed(hub, conn, s))
    ensures hub.abandoned == {} ==> hub.latest <= conn.tip
  {
    assert Own(conn) == [] && Own(conn) + Owed(role) == [] && Waiting(conn, role) == [];
    assert Advance([], conn.tip) == conn.tip;
    assert conn.tip < hub.latest ==> hub.latest in hub.abandoned;
    NotOfferedAbove(conn.offers, conn.tip);
    hide Seqs, InTime, Own, Gapless, Advance;
  }

  lemma NotOfferedAbove(offers: seq<nat>, tip: nat)
    requires Processed(offers, [], tip)
    ensures forall s :: tip < s ==> !InTime(offers, s)
  {
  }

  lemma {:induction false} StreamStops(start: nat, latest: nat, tip: nat, hidden: set<nat>, q: seq<nat>)
    requires latest <= tip && q == Stream(start, tip, hidden) && forall s :: s in q ==> s <= latest
    ensures q == Stream(start, latest, hidden)
    decreases tip
  {
    if latest < tip && start < tip {
      var before := Stream(start, tip - 1, hidden);
      assert tip in before + [tip];
      assert tip !in q;
      StreamStops(start, latest, tip - 1, hidden, q);
    }
  }

  // ---- A publication that returns before its broadcast leaves a gap ----

  function Last(trace: seq<System>): System
    requires trace != []
  {
    trace[|trace| - 1]
  }

  lemma Extend(trace: seq<System>, step: SystemStep) returns (longer: seq<System>)
    requires Execution(trace) && Enabled(Last(trace), step)
    ensures Execution(longer) && Last(longer) == Next(Last(trace), step)
  {
    hide Next, Enabled;
    longer := trace + [Next(Last(trace), step)];
    forall i | 0 <= i < |longer| - 1
      ensures StepsTo(longer[i], longer[i + 1])
    {
      if i < |trace| - 1 {
        assert StepsTo(trace[i], trace[i + 1]);
      }
    }
  }

  /** A Hub with an empty Session, one live connection and a publisher inside the gate. */
  function LiveSystem(latest: nat, abandoned: set<nat>, publications: map<nat, Publication>): System {
    var conn := Conn(0, 0, Subscription(0, false, [], map[]), Finished, Idle, [], 0, false, 0, []);
    System("s", Gate.Gates(map["s" := 0], [Gate.Ticket("s", None, Gate.Holding)], [0]),
           Hub(latest, {}, map[0 := conn], {0}, None, {}, abandoned), publications)
  }

  function JoiningSystem(replay: Replay): System {
    LiveSystem(0, {}, map[]).(hub := Hub(0, {}, map[0 := NewConn(0, 0).(replay := replay)], {0}, None, {}, {}))
  }

  lemma RegisterRun() returns (trace: seq<System>)
    ensures Execution(trace) && Last(trace) == JoiningSystem(Pending)
  {
    trace := [System("s", Gate.Empty(), Hub(0, {}, map[], {}, None, {}, {}), map[])];
    trace := Extend(trace, AtGate(Gate.Enter("s")));
    trace := Extend(trace, AtHub(Register(0, 0)));
  }

  lemma ReplayRun() returns (trace: seq<System>)
    ensures Execution(trace) && Last(trace) == JoiningSystem(Draining([]))
  {
    trace := RegisterRun();
    trace := Extend(trace, AtHub(OnConn(0, StartReplay)));
    assert Last(trace) == JoiningSystem(Replaying(0, 0));
    trace := Extend(trace, AtHub(OnConn(0, EndReplay)));
  }

  lemma JoinRun() returns (trace: seq<System>)
    ensures Execution(trace) && Last(trace) == LiveSystem(0, {}, map[])
  {
    trace := ReplayRun();
    trace := Extend(trace, AtHub(OnConn(0, Take)));
  }

  lemma AbandonRun() returns (trace: seq<System>)
    ensures Execution(trace) && Last(trace) == LiveSystem(1, {1}, map[])
  {
    trace := JoinRun();
    trace := Extend(trace, PublishAs(0, Append(1)));
    assert Range(0, 1) == [1];
    trace := Extend(trace, PublishAs(0, Abandon));
    assert Last(trace).publications == map[];
  }

  /** With event 1 abandoned, a live connection is sent event 2 and never sees event 1. */
  lemma AbandonedEventIsSkipped() returns (trace: seq<System>)
    ensures Execution(trace) && 0 in Last(trace).hub.conns
    ensures Last(trace).hub.latest == 2 && Last(trace).hub.abandoned == {1}
    ensures Last(trace).hub.conns[0].wire == [Durable(2)] && Last(trace).hub.conns[0].start == 0
  {
    trace := AbandonRun();
    trace := Extend(trace, PublishAs(0, Append(1)));
    assert Range(1, 1) == [2];
    trace := Extend(trace, PublishAs(0, Snapshot));
    trace := Extend(trace, PublishAs(0, OfferTo(0)));
    trace := Extend(trace, PublishAs(0, WriteLive));
  }
}
