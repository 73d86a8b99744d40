/**
  The TypeScript client's durable cursor across reconnects, on top of gated delivery.

  The client keeps one cursor per Session, sends it in every hello, moves it forward as events
  arrive and calls its handlers for each event it receives. It has one socket at a time; a socket
  hands over some prefix of what the Hub wrote to it before it is lost.
*/
module ClientCursor {
  import opened Subscriptions
  import opened Delivery
  import opened GatedDelivery
  import DeliveryProofs

  datatype Socket = Closed | Opening(hello: nat) | Attached(c: nat, received: nat)

  /** `handled` is what the event handlers were called with, oldest first. */
  datatype Client = Client(cursor: nat, handled: seq<Event>, socket: Socket)

  /** `handleEvent`: the cursor only moves forward; the handlers run for every event. */
  function Handle(client: Client, ev: Event): Client {
    client.(cursor := if ev.Durable? && ev.seqNo > client.cursor then ev.seqNo else client.cursor,
            handled := client.handled + [ev])
  }

  /**
    The whole system with one client in focus; `first` is the cursor it was constructed with. `via` is history:
    the connections over which the cursor passed the events above `first`, one after the other.
  */
  datatype World = World(sys: System, client: Client, first: nat, via: seq<nat>)

  datatype WorldStep =
    | Elsewhere(system: SystemStep)
    | Open
    | Attach(c: nat)
    | Receive
    | Lose

  predicate WorldEnabled(w: World, step: WorldStep) {
    match step
    case Elsewhere(system) => GatedDelivery.Enabled(w.sys, system)
    case Open => w.client.socket.Closed?
    case Attach(c) =>
      w.client.socket.Opening? && GatedDelivery.Enabled(w.sys, AtHub(Register(c, w.client.socket.hello)))
    case Receive =>
      w.client.socket.Attached? && w.client.socket.c in w.sys.hub.conns &&
      w.client.socket.received < |w.sys.hub.conns[w.client.socket.c].wire|
    case Lose => !w.client.socket.Closed?
  }

  function WorldNext(w: World, step: WorldStep): World
    requires WorldEnabled(w, step)
  {
    match step
    case Elsewhere(system) => w.(sys := GatedDelivery.Next(w.sys, system))
    case Open => w.(client := w.client.(socket := Opening(w.client.cursor)))
    case Attach(c) =>
      w.(sys := GatedDelivery.Next(w.sys, AtHub(Register(c, w.client.socket.hello))),
         client := w.client.(socket := Attached(c, 0)))
    case Receive =>
      var s := w.client.socket;
      var client := Handle(w.client, w.sys.hub.conns[s.c].wire[s.received]);
      w.(client := client.(socket := Attached(s.c, s.received + 1)),
         via := w.via + seq(client.cursor - w.client.cursor, _ => s.c))
    case Lose => w.(client := w.client.(socket := Closed))
  }

  ghost predicate SocketOk(client: Client, hub: Hub) {
    match client.socket
    case Closed => true
    case Opening(hello) => hello == client.cursor
    case Attached(c, received) =>
      c in hub.conns && received <= |hub.conns[c].wire| &&
      client.cursor == LastOr(hub.conns[c].start, Seqs(hub.conns[c].wire[..received]))
  }

  ghost predicate WorldOk(w: World) {
    && SystemOk(w.sys)
    && Tidy(Seqs(w.client.handled), w.first, w.client.cursor, w.sys.hub.hidden, w.sys.hub.abandoned)
    && (forall s :: s in Seqs(w.client.handled) ==> s <= w.sys.hub.latest)
    && SocketOk(w.client, w.sys.hub)
    && |w.via| == w.client.cursor - w.first
    && ViaOk(w.via, w.first, Seqs(w.client.handled), w.sys.hub.conns)
  }

  /** An event that the cursor passed was handled exactly when the connection it was passed over carries it. */
  ghost predicate ViaOk(via: seq<nat>, first: nat, handled: seq<nat>, conns: map<nat, Conn>) {
    forall k :: 0 <= k < |via| ==> via[k] in conns && CarriedAlike(conns[via[k]], handled, first + 1 + k)
  }

  ghost predicate CarriedAlike(conn: Conn, handled: seq<nat>, s: nat) {
    conn.start < s <= conn.tip && (s in handled <==> s in Seqs(conn.wire))
  }

  // ---- The Hub only ever extends what it wrote to a socket ----

  ghost predicate Extends(hub: Hub, hub': Hub) {
    && hub'.hidden == hub.hidden && hub.abandoned <= hub'.abandoned && hub.latest <= hub'.latest
    && forall c :: c in hub.conns ==> c in hub'.conns && Continues(hub.conns[c], hub'.conns[c])
  }

  /** More may be written to the connection, and every durable event of it lies above the old `tip`. */
  ghost predicate Continues(conn: Conn, conn': Conn) {
    && conn'.start == conn.start && conn.tip <= conn'.tip && conn.wire <= conn'.wire
    && forall s :: s <= conn.tip ==> (s in Seqs(conn'.wire) <==> s in Seqs(conn.wire))
  }

  lemma WriteContinues(conn: Conn, ev: Event)
    requires ev.Durable? ==> conn.tip < ev.seqNo
    ensures Continues(conn, Write(conn, ev))
  {
    SeqsSnoc(conn.wire, ev);
  }

  lemma ConnStepExtends(conn: Conn, step: ConnStep, role: Role, latest: nat, hidden: set<nat>, abandoned: set<nat>)
    requires ConnOk(conn, role, latest, hidden, abandoned) && ConnEnabled(conn, step, latest)
    ensures Continues(conn, ConnNext(conn, step, latest, hidden))
  {
    hide Seqs, Gapless, Advance, Tidy;
    if step.WriteFlight? {
      WriteContinues(conn, conn.flight.ev);
    } else if step.SendEphemeral? {
      WriteContinues(conn, Ephemeral(step.kind, step.body));
    }
  }

  lemma Unwritten(conn: Conn, conn': Conn)
    requires conn'.start == conn.start && conn'.tip == conn.tip && conn'.wire == conn.wire
    ensures Continues(conn, conn')
  {
  }

  lemma PublisherContinues(h: Hub, step: PublisherStep, c: nat)
    requires HubOk(h) && PublisherEnabled(h, step) && c in h.conns
    ensures c in PublisherNext(h, step).conns && Continues(h.conns[c], PublisherNext(h, step).conns[c])
  {
    if step.WriteLive? && h.publication.value.sending.target == c {
      var conn, n := h.conns[c], h.publication.value.queue[0];
      assert ConnOk(conn, RoleOf(h, c), h.latest, h.hidden, h.abandoned);
      assert RoleOf(h, c).head == InFlight(n);
      assert conn.tip < n;
      hide HubOk, RoleOf, Linked, Continues;
      WriteContinues(conn, Durable(n));
    } else {
      hide HubOk, Seqs, Judge, Offer, Continues;
      Unwritten(h.conns[c], PublisherNext(h, step).conns[c]);
    }
  }

  lemma PublisherExtends(h: Hub, step: PublisherStep)
    requires HubOk(h) && PublisherEnabled(h, step)
    ensures Extends(h, PublisherNext(h, step))
  {
    hide HubOk, Continues;
    forall c | c in h.conns
      ensures c in PublisherNext(h, step).conns && Continues(h.conns[c], PublisherNext(h, step).conns[c])
    {
      PublisherContinues(h, step, c);
    }
  }

  lemma StepExtends(h: Hub, step: Step)
    requires HubOk(h) && Delivery.Enabled(h, step)
    ensures Extends(h, Delivery.Next(h, step))
  {
    match step
    case Register(_, _) =>
    case Unregister(_) =>
    case OnConn(c, conn) => ConnStepExtends(h.conns[c], conn, RoleOf(h, c), h.latest, h.hidden, h.abandoned);
    case Publish(p) => PublisherExtends(h, p);
  }

  lemma SystemExtends(sys: System, step: SystemStep)
    requires SystemOk(sys) && GatedDelivery.Enabled(sys, step)
    ensures SystemOk(GatedDelivery.Next(sys, step))
    ensures Extends(sys.hub, GatedDelivery.Next(sys, step).hub)
  {
    StepSimulates(sys, step);
    match step
    case AtGate(_) =>
    case AtHub(h) => StepExtends(Serial(sys), h);
    case PublishAs(_, p) => StepExtends(Serial(sys), Publish(p));
  }

  lemma ExtendsKeepsSocket(client: Client, hub: Hub, hub': Hub)
    requires SocketOk(client, hub) && Extends(hub, hub')
    ensures SocketOk(client, hub')
  {
    if client.socket.Attached? {
      var c, r := client.socket.c, client.socket.received;
      assert hub'.conns[c].wire[..r] == hub.conns[c].wire[..r];
    }
  }

  // ---- Receiving the next event ----

  lemma RisingBelowLast(q: seq<nat>, start: nat)
    requires Rising(q)
    ensures forall s :: s in q ==> s <= LastOr(start, q)
  {
  }

  lemma RisingSplit(a: seq<nat>, n: nat, b: seq<nat>)
    requires Rising(a + [n] + b)
    ensures Rising(a) && (forall s :: s in a ==> s < n) && (forall s :: s in b ==> s > n)
  {
    var q := a + [n] + b;
    assert q[|a|] == n;
    forall s | s in a
      ensures s < n
    {
      var j :| 0 <= j < |a| && a[j] == s;
      assert q[j] == s;
    }
    forall s | s in b
      ensures s > n
    {
      var j :| 0 <= j < |b| && b[j] == s;
      assert q[|a| + 1 + j] == s;
    }
    forall i, j | 0 <= i < j < |a|
      ensures a[i] < a[j]
    {
      assert q[i] == a[i] && q[j] == a[j];
    }
  }

  /** Between two neighbours on a tidy wire there is nothing but filtered and abandoned events. */
  lemma NothingBetween(a: seq<nat>, n: nat, b: seq<nat>, start: nat, tip: nat, hidden: set<nat>, abandoned: set<nat>)
    requires Tidy(a + [n] + b, start, tip, hidden, abandoned)
    ensures start <= LastOr(start, a) < n <= tip && n !in hidden
    ensures forall s :: LastOr(start, a) < s < n ==> (s in hidden || s in abandoned) && s !in a + [n] + b
  {
    var q := a + [n] + b;
    RisingSplit(a, n, b);
    RisingBelowLast(a, start);
    assert q[|a|] == n && n in q;
    assert forall s :: s in q <==> s in a || s == n || s in b;
    assert forall i :: 0 <= i < |a| ==> a[i] in a;
    assert start <= LastOr(start, a) < n;
  }

  lemma TakeOneMore(wire: seq<Event>, r: nat)
    requires r < |wire|
    ensures Seqs(wire[..r + 1]) == Seqs(wire[..r]) + (if wire[r].Durable? then [wire[r].seqNo] else [])
  {
    SeqsSnoc(wire[..r], wire[r]);
    assert wire[..r] + [wire[r]] == wire[..r + 1];
  }

  lemma SplitAt(wire: seq<Event>, r: nat)
    requires r < |wire| && wire[r].Durable?
    ensures Seqs(wire) == Seqs(wire[..r]) + [wire[r].seqNo] + Seqs(wire[r + 1..])
  {
    TakeOneMore(wire, r);
    SeqsConcat(wire[..r + 1], wire[r + 1..]);
    assert wire[..r + 1] + wire[r + 1..] == wire;
  }

  lemma ReceiveDurable(client: Client, conn: Conn, first: nat, hidden: set<nat>, abandoned: set<nat>, r: nat)
    requires Tidy(Seqs(client.handled), first, client.cursor, hidden, abandoned)
    requires Tidy(Seqs(conn.wire), conn.start, conn.tip, hidden, abandoned)
    requires r < |conn.wire| && client.cursor == LastOr(conn.start, Seqs(conn.wire[..r])) && conn.wire[r].Durable?
    ensures conn.start <= client.cursor < conn.wire[r].seqNo <= conn.tip
    ensures forall s :: client.cursor < s <= conn.wire[r].seqNo ==> (s in Seqs(conn.wire) <==> s == conn.wire[r].seqNo)
    ensures Tidy(Seqs(client.handled) + [conn.wire[r].seqNo], first, conn.wire[r].seqNo, hidden, abandoned)
  {
    var n := conn.wire[r].seqNo;
    SplitAt(conn.wire, r);
    NothingBetween(Seqs(conn.wire[..r]), n, Seqs(conn.wire[r + 1..]), conn.start, conn.tip, hidden, abandoned);
    DeliveryProofs.TidyExtend(Seqs(client.handled), first, client.cursor, n, hidden, abandoned);
  }

  lemma ReceiveKeeps(client: Client, conn: Conn, first: nat, hidden: set<nat>, abandoned: set<nat>, r: nat)
    requires Tidy(Seqs(client.handled), first, client.cursor, hidden, abandoned)
    requires Tidy(Seqs(conn.wire), conn.start, conn.tip, hidden, abandoned)
    requires r < |conn.wire| && client.cursor == LastOr(conn.start, Seqs(conn.wire[..r]))
    ensures var client' := Handle(client, conn.wire[r]);
            && Tidy(Seqs(client'.handled), first, client'.cursor, hidden, abandoned)
            && client'.cursor == LastOr(conn.start, Seqs(conn.wire[..r + 1])) && client.cursor <= client'.cursor
            && (forall s :: s in Seqs(client'.handled) ==> s in Seqs(client.handled) || s in Seqs(conn.wire))
            && (forall s :: s <= client.cursor ==> (s in Seqs(client'.handled) <==> s in Seqs(client.handled)))
            && (forall s :: client.cursor < s <= client'.cursor ==> CarriedAlike(conn, Seqs(client'.handled), s))
  {
    var ev := conn.wire[r];
    TakeOneMore(conn.wire, r);
    SeqsSnoc(client.handled, ev);
    if ev.Durable? {
      ReceiveDurable(client, conn, first, hidden, abandoned, r);
      InSeqs(conn.wire, r);
    } else {
      assert Seqs(client.handled) + [] == Seqs(client.handled);
      assert Seqs(conn.wire[..r]) + [] == Seqs(conn.wire[..r]);
    }
  }

  lemma TidyExcusesMore(q: seq<nat>, start: nat, tip: nat, hidden: set<nat>, abandoned: set<nat>, more: set<nat>)
    requires Tidy(q, start, tip, hidden, abandoned) && abandoned <= more
    ensures Tidy(q, start, tip, hidden, more)
  {
  }

  lemma SystemStepKeeps(w: World, step: SystemStep)
    requires WorldOk(w) && GatedDelivery.Enabled(w.sys, step)
    ensures WorldOk(w.(sys := GatedDelivery.Next(w.sys, step)))
  {
    var sys' := GatedDelivery.Next(w.sys, step);
    SystemExtends(w.sys, step);
    ExtendsKeepsSocket(w.client, w.sys.hub, sys'.hub);
    TidyExcusesMore(Seqs(w.client.handled), w.first, w.client.cursor, w.sys.hub.hidden, w.sys.hub.abandoned,
                    sys'.hub.abandoned);
    ViaContinues(w.via, w.first, Seqs(w.client.handled), w.sys.hub, sys'.hub);
    hide SystemOk, Tidy, ViaOk, Seqs, Extends;
  }

  lemma ViaContinues(via: seq<nat>, first: nat, handled: seq<nat>, hub: Hub, hub': Hub)
    requires ViaOk(via, first, handled, hub.conns) && Extends(hub, hub')
    ensures ViaOk(via, first, handled, hub'.conns)
  {
    hide Seqs;
    forall k | 0 <= k < |via|
      ensures via[k] in hub'.conns && CarriedAlike(hub'.conns[via[k]], handled, first + 1 + k)
    {
      assert CarriedAlike(hub.conns[via[k]], handled, first + 1 + k);
    }
  }

  lemma AttachKeeps(w: World, c: nat)
    requires WorldOk(w) && WorldEnabled(w, Attach(c))
    ensures WorldOk(WorldNext(w, Attach(c)))
  {
    var step := AtHub(Register(c, w.client.socket.hello));
    SystemStepKeeps(w, step);
    var conn := GatedDelivery.Next(w.sys, step).hub.conns[c];
    assert conn == NewConn(w.client.socket.hello, w.sys.hub.latest);
    assert conn.wire[..0] == [];
  }

  /** The invariant of one connection in a gated system. */
  lemma ConnFacts(sys: System, c: nat) returns (role: Role)
    requires SystemOk(sys) && c in sys.hub.conns
    ensures ConnOk(sys.hub.conns[c], role, sys.hub.latest, sys.hub.hidden, sys.hub.abandoned)
    ensures LogOk(sys.hub.conns[c], role, sys.hub.hidden)
    ensures sys.publications == map[] ==> role == Role(c in sys.hub.registered, NoHead, [])
  {
    hide ConnOk, LogOk, Gate.Valid, PublicationOk;
    role := RoleOf(Serial(sys), c);
  }

  lemma ReceiveStepKeeps(w: World)
    requires WorldOk(w) && WorldEnabled(w, Receive)
    ensures WorldOk(WorldNext(w, Receive))
  {
    hide SystemOk, Seqs, Handle, Tidy;
    var c, r := w.client.socket.c, w.client.socket.received;
    var hub, conn := w.sys.hub, w.sys.hub.conns[w.client.socket.c];
    var role := ConnFacts(w.sys, c);
    assert WireOk(conn, hub.latest, hub.hidden, hub.abandoned);
    hide ConnOk;
    ReceiveKeeps(w.client, conn, w.first, hub.hidden, hub.abandoned, r);
    var client' := Handle(w.client, conn.wire[r]);
    ViaReceives(w.via, w.first, Seqs(w.client.handled), Seqs(client'.handled), hub.conns, c, client'.cursor);
    hide ViaOk;
  }

  lemma ViaReceives(
    via: seq<nat>, first: nat, handled: seq<nat>, handled': seq<nat>, conns: map<nat, Conn>, c: nat, cursor: nat)
    requires ViaOk(via, first, handled, conns) && c in conns && first + |via| <= cursor
    requires forall s :: s <= first + |via| ==> (s in handled' <==> s in handled)
    requires forall s :: first + |via| < s <= cursor ==> CarriedAlike(conns[c], handled', s)
    ensures ViaOk(via + seq(cursor - first - |via|, _ => c), first, handled', conns)
  {
    hide Seqs;
    var via' := via + seq(cursor - first - |via|, _ => c);
    forall k | 0 <= k < |via'|
      ensures via'[k] in conns && CarriedAlike(conns[via'[k]], handled', first + 1 + k)
    {
      if k < |via| {
        assert CarriedAlike(conns[via[k]], handled, first + 1 + k);
      }
    }
  }

  lemma WorldStepKeeps(w: World, step: WorldStep)
    requires WorldOk(w) && WorldEnabled(w, step)
    ensures WorldOk(WorldNext(w, step))
  {
    match step
    case Elsewhere(system) => SystemStepKeeps(w, system);
    case Open =>
    case Attach(c) => AttachKeeps(w, c);
    case Receive => ReceiveStepKeeps(w);
    case Lose =>
  }

  // ---- Runs ----

  ghost predicate WorldInitial(w: World) {
    GatedDelivery.Initial(w.sys) && w.client == Client(w.first, [], Closed) && w.via == []
  }

  ghost predicate WorldStepsTo(w: World, w': World) {
    exists step :: WorldEnabled(w, step) && w' == WorldNext(w, step)
  }

  ghost predicate WorldExecution(trace: seq<World>) {
    && |trace| > 0
    && WorldInitial(trace[0])
    && forall i :: 0 <= i < |trace| - 1 ==> WorldStepsTo(trace[i], trace[i + 1])
  }

  lemma {:induction false} WorldExecutionOk(trace: seq<World>, n: nat)
    requires WorldExecution(trace) && n < |trace|
    ensures WorldOk(trace[n]) && trace[n].first == trace[0].first
  {
    if n == 0 {
      assert Serial(trace[0].sys) == trace[0].sys.hub;
    } else {
      WorldExecutionOk(trace, n - 1);
      assert WorldStepsTo(trace[n - 1], trace[n - 1 + 1]);
      var step :| WorldEnabled(trace[n - 1], step) && trace[n] == WorldNext(trace[n - 1], step);
      WorldStepKeeps(trace[n - 1], step);
    }
  }

  // ---- The handlers see the socket ----

  /** What the handlers were called with last is what the open socket handed over, ephemeral events included. */
  ghost predicate HandledOk(w: World) {
    w.client.socket.Attached? ==>
      var c, received := w.client.socket.c, w.client.socket.received;
      && c in w.sys.hub.conns && received <= |w.sys.hub.conns[c].wire| && received <= |w.client.handled|
      && w.client.handled[|w.client.handled| - received..] == w.sys.hub.conns[c].wire[..received]
  }

  lemma HandleOneMore(handled: seq<Event>, wire: seq<Event>, r: nat)
    requires r < |wire| && r <= |handled| && handled[|handled| - r..] == wire[..r]
    ensures var handled' := handled + [wire[r]];
            handled'[|handled'| - (r + 1)..] == wire[..r + 1]
  {
    var handled' := handled + [wire[r]];
    assert handled'[|handled'| - (r + 1)..] == handled[|handled| - r..] + [wire[r]];
    assert wire[..r + 1] == wire[..r] + [wire[r]];
  }

  lemma HandledElsewhere(w: World, step: SystemStep)
    requires SystemOk(w.sys) && GatedDelivery.Enabled(w.sys, step) && HandledOk(w)
    ensures HandledOk(w.(sys := GatedDelivery.Next(w.sys, step)))
  {
    hide SystemOk, GatedDelivery.Next, GatedDelivery.Enabled;
    SystemExtends(w.sys, step);
    var sys' := GatedDelivery.Next(w.sys, step);
    if w.client.socket.Attached? {
      var c, received := w.client.socket.c, w.client.socket.received;
      assert Continues(w.sys.hub.conns[c], sys'.hub.conns[c]);
      assert sys'.hub.conns[c].wire[..received] == w.sys.hub.conns[c].wire[..received];
    }
  }

  lemma HandledReceive(w: World)
    requires WorldEnabled(w, Receive) && HandledOk(w)
    ensures HandledOk(WorldNext(w, Receive))
  {
    var c, received := w.client.socket.c, w.client.socket.received;
    HandleOneMore(w.client.handled, w.sys.hub.conns[c].wire, received);
    hide GatedDelivery.Next, GatedDelivery.Enabled;
  }

  lemma HandledAttach(w: World, c: nat)
    requires WorldEnabled(w, Attach(c))
    ensures HandledOk(WorldNext(w, Attach(c)))
  {
    assert w.client.handled[|w.client.handled|..] == [];
  }

  lemma HandledStep(w: World, step: WorldStep)
    requires SystemOk(w.sys) && WorldEnabled(w, step) && HandledOk(w)
    ensures HandledOk(WorldNext(w, step))
  {
    hide SystemOk, GatedDelivery.Next, GatedDelivery.Enabled;
    match step {
      case Elsewhere(system) => HandledElsewhere(w, system);
      case Receive => HandledReceive(w);
      case Attach(c) => HandledAttach(w, c);
      case _ =>
    }
  }

  /** In every run the handlers were last called with exactly what the open socket has handed over, in order. */
  lemma {:induction false} HandlersSeeTheSocket(trace: seq<World>, n: nat)
    requires WorldExecution(trace) && n < |trace|
    ensures HandledOk(trace[n])
    decreases n
  {
    hide SystemOk, WorldOk, WorldNext, WorldEnabled, HandledOk;
    if n == 0 {
      NothingHandled(trace[0]);
    } else {
      HandlersSeeTheSocket(trace, n - 1);
      WorldSystemOk(trace, n - 1);
      assert WorldStepsTo(trace[n - 1], trace[n - 1 + 1]);
      var step :| WorldEnabled(trace[n - 1], step) && trace[n] == WorldNext(trace[n - 1], step);
      HandledStep(trace[n - 1], step);
    }
  }

  lemma WorldSystemOk(trace: seq<World>, n: nat)
    requires WorldExecution(trace) && n < |trace|
    ensures SystemOk(trace[n].sys)
  {
    hide SystemOk;
    WorldExecutionOk(trace, n);
  }

  lemma NothingHandled(w: World)
    requires WorldInitial(w)
    ensures HandledOk(w)
  {
  }

  /** The connection over which the cursor passed the event had missed it. */
  ghost predicate Skipped(w: World, s: nat) {
    && w.first < s <= w.first + |w.via| && w.via[s - w.first - 1] in w.sys.hub.conns
    && Missed(w.sys.hub, w.sys.hub.conns[w.via[s - w.first - 1]], s)
  }

  lemma UnhandledIffSkipped(w: World, s: nat)
    requires WorldOk(w) && w.first < s <= w.client.cursor && s !in w.sys.hub.hidden
    ensures s !in Seqs(w.client.handled) <==> Skipped(w, s)
  {
    hide SystemOk, Seqs, Tidy, Missed;
    var c := w.via[s - w.first - 1];
    assert CarriedAlike(w.sys.hub.conns[c], Seqs(w.client.handled), s);
    var role := ConnFacts(w.sys, c);
    AbsentIffMissed(w.sys.hub, w.sys.hub.conns[c], role, s);
  }

  /**
    End to end, over any number of disconnects and reconnects: the handlers see durable events in
    strictly rising order from the initial cursor, so none twice, and up to the cursor exactly those are
    missing that the connection in use missed. Without abandoned publications that is the Session's stream.
  */
  lemma HandledExactlyOnce(trace: seq<World>, n: nat)
    requires WorldExecution(trace) && n < |trace|
    ensures var w, hub, client, first := trace[n], trace[n].sys.hub, trace[n].client, trace[0].first;
            && Tidy(Seqs(client.handled), first, client.cursor, hub.hidden, hub.abandoned)
            && (forall s :: first < s <= client.cursor && s !in hub.hidden ==>
                  (s !in Seqs(client.handled) <==> Skipped(w, s)))
            && (hub.abandoned == {} ==> Seqs(client.handled) == Stream(first, client.cursor, hub.hidden))
  {
    WorldExecutionOk(trace, n);
    var w := trace[n];
    assert Tidy(Seqs(w.client.handled), w.first, w.client.cursor, w.sys.hub.hidden, w.sys.hub.abandoned);
    hide WorldOk, Skipped, Seqs, WorldExecution;
    forall s | w.first < s <= w.client.cursor && s !in w.sys.hub.hidden
      ensures s !in Seqs(w.client.handled) <==> Skipped(w, s)
    {
      UnhandledIffSkipped(w, s);
    }
    if w.sys.hub.abandoned == {} {
      TidyIsStream(Seqs(w.client.handled), w.first, w.client.cursor, w.sys.hub.hidden);
    }
  }

  /** The client has received everything its settled connection was sent. */
  predicate UpToDate(w: World) {
    w.client.socket.Attached? && Settled(w.sys, w.client.socket.c) &&
    w.client.socket.received == |w.sys.hub.conns[w.client.socket.c].wire|
  }

  /** The connection over which the cursor passed the event, or the current one above the cursor, missed it. */
  ghost predicate NotSeen(w: World, s: nat)
    requires UpToDate(w)
  {
    if s <= w.client.cursor then Skipped(w, s) else Missed(w.sys.hub, w.sys.hub.conns[w.client.socket.c], s)
  }

  /**
    A client that has caught up, after any history of lost sockets, has handled the whole stream: every
    event of the Store above its initial cursor, once each and in order, except exactly the missed ones.
  */
  lemma UpToDateSawEverything(trace: seq<World>, n: nat)
    requires WorldExecution(trace) && n < |trace| && UpToDate(trace[n])
    ensures var w, hub, first := trace[n], trace[n].sys.hub, trace[0].first;
            && (forall s :: first < s <= hub.latest && s !in hub.hidden ==>
                  (s !in Seqs(w.client.handled) <==> NotSeen(w, s)))
            && (hub.abandoned == {} && first <= hub.latest ==>
                  Seqs(w.client.handled) == Stream(first, hub.latest, hub.hidden))
  {
    WorldExecutionOk(trace, n);
    HandledExactlyOnce(trace, n);
    var w := trace[n];
    var hub := w.sys.hub;
    assert forall s :: s in Seqs(w.client.handled) ==> s <= hub.latest;
    hide SystemOk, WorldExecution, Seqs, NotSeen, Skipped, SocketOk, ViaOk;
    forall s | w.first < s <= hub.latest && s !in hub.hidden
      ensures s !in Seqs(w.client.handled) <==> NotSeen(w, s)
    {
      UpToDateWorld(w, s);
    }
    if hub.abandoned == {} && w.first <= hub.latest {
      forall s | w.first < s <= hub.latest && s !in hub.hidden
        ensures s in Seqs(w.client.handled)
      {
        NothingMissed(w, s);
      }
      StreamAgrees(w.first, w.client.cursor, hub.latest, hub.hidden, Seqs(w.client.handled));
    }
  }

  lemma NothingMissed(w: World, s: nat)
    requires UpToDate(w) && w.sys.hub.abandoned == {}
    ensures !NotSeen(w, s)
  {
  }

  lemma UpToDateWorld(w: World, s: nat)
    requires WorldOk(w) && UpToDate(w) && w.first < s <= w.sys.hub.latest && s !in w.sys.hub.hidden
    ensures s !in Seqs(w.client.handled) <==> NotSeen(w, s)
  {
    hide SystemOk, Seqs, Missed, LogOk;
    if s <= w.client.cursor {
      UnhandledIffSkipped(w, s);
    } else {
      var conn := w.sys.hub.conns[w.client.socket.c];
      var role := ConnFacts(w.sys, w.client.socket.c);
      SettledConn(w.sys.hub, conn, role);
      assert conn.wire[..|conn.wire|] == conn.wire;
      AboveCursor(Seqs(conn.wire), conn.start, conn.tip, w.sys.hub.hidden, w.sys.hub.abandoned, s);
    }
  }

  lemma AboveCursor(wire: seq<nat>, start: nat, tip: nat, hidden: set<nat>, abandoned: set<nat>, s: nat)
    requires Tidy(wire, start, tip, hidden, abandoned) && LastOr(start, wire) < s
    ensures start < s && s !in wire
  {
    RisingBelowLast(wire, start);
    assert forall i :: 0 <= i < |wire| ==> wire[i] in wire;
  }

  lemma {:induction false} StreamAgrees(first: nat, cursor: nat, latest: nat, hidden: set<nat>, q: seq<nat>)
    requires q == Stream(first, cursor, hidden) && first <= cursor
    requires forall s :: first < s <= latest && s !in hidden ==> s in q
    requires forall s :: s in q ==> s <= latest
    ensures q == Stream(first, latest, hidden)
    decreases if latest > cursor then latest - cursor else cursor - latest
  {
    StreamMembers(first, cursor, hidden);
    if cursor < latest {
      StreamAgrees(first, cursor, latest - 1, hidden, q);
    } else if latest < cursor && first < cursor {
      StreamStops(first, latest, cursor, hidden, q);
    }
  }

  lemma {:induction false} StreamMembers(first: nat, cursor: nat, hidden: set<nat>)
    ensures forall s :: s in Stream(first, cursor, hidden) ==> first < s <= cursor
    decreases cursor
  {
    if first < cursor {
      StreamMembers(first, cursor - 1, hidden);
    }
  }

  /** The client object: cursors per Session, changed in place as events arrive. */
  class AgentWharfClient {
    var cursors: map<string, nat>
    var handled: seq<(string, Event)>

    constructor (sessions: map<string, nat>)
      ensures cursors == sessions && handled == []
    {
      cursors, handled := sessions, [];
    }

    method LastSeq(session: string) returns (cursor: nat)
      ensures cursor == if session in cursors then cursors[session] else 0
    {
      cursor := if session in cursors then cursors[session] else 0;
    }

    /** One Session's part of the client, as the functional model sees it. */
    ghost function ClientOf(session: string): Client
      reads this
    {
      Client(if session in cursors then cursors[session] else 0, Of(session, handled), Closed)
    }

    /** An event changes the state of its own Session as `Handle` does, and no other Session's. */
    method HandleEvent(session: string, ev: Event)
      modifies this
      ensures ClientOf(session) == Handle(old(ClientOf(session)), ev)
      ensures forall other :: other != session ==> ClientOf(other) == old(ClientOf(other))
      ensures handled == old(handled) + [(session, ev)]
    {
      if ev.Durable? {
        var current := LastSeq(session);
        if ev.seqNo > current {
          cursors := cursors[session := ev.seqNo];
        }
      }
      OfSnoc(handled, session, ev);
      handled := handled + [(session, ev)];
    }
  }

  function Of(session: string, events: seq<(string, Event)>): seq<Event> {
    if events == [] then []
    else
      var last := events[|events| - 1];
      Of(session, events[..|events| - 1]) + (if last.0 == session then [last.1] else [])
  }

  lemma OfSnoc(events: seq<(string, Event)>, session: string, ev: Event)
    ensures forall t :: Of(t, events + [(session, ev)]) == Of(t, events) + (if t == session then [ev] else [])
  {
    assert (events + [(session, ev)])[..|events|] == events;
  }
}
