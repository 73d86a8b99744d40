/**
  Gated delivery run by run: which ephemeral events a connection ends up with, when it is closed, and that a
  publication which finishes was offered to everybody who was there throughout.
*/
module DeliveryRuns {
  import opened Wrappers
  import opened Subscriptions
  import opened Delivery
  import GatedDelivery

  type System = GatedDelivery.System
  type SystemStep = GatedDelivery.SystemStep

  /** A run together with the steps it takes. */
  ghost predicate Run(trace: seq<System>, steps: seq<SystemStep>) {
    && |trace| == |steps| + 1 && GatedDelivery.Initial(trace[0])
    && forall i :: 0 <= i < |steps| ==>
         GatedDelivery.Enabled(trace[i], steps[i]) && trace[i + 1] == GatedDelivery.Next(trace[i], steps[i])
  }

  lemma RunOk(trace: seq<System>, steps: seq<SystemStep>, n: nat)
    requires Run(trace, steps) && n < |trace|
    ensures GatedDelivery.SystemOk(trace[n])
  {
    forall i | 0 <= i < |trace| - 1
      ensures GatedDelivery.StepsTo(trace[i], trace[i + 1])
    {
      assert GatedDelivery.Enabled(trace[i], steps[i]) && trace[i + 1] == GatedDelivery.Next(trace[i], steps[i]);
    }
    hide GatedDelivery.Next, GatedDelivery.Enabled;
    GatedDelivery.ExecutionOk(trace, n);
  }

  // ---- The newest ephemeral of a type ----

  predicate OfKind(ev: Event, kind: string) {
    ev.Ephemeral? && ev.kind == kind
  }

  /** The body of the last event of this type, if there is one. */
  function LastOf(events: seq<Event>, kind: string): Option<int> {
    if events == [] then None
    else
      var last := |events| - 1;
      if OfKind(events[last], kind) then Some(events[last].body) else LastOf(events[..last], kind)
  }

  lemma {:induction false} LastConcat(a: seq<Event>, b: seq<Event>, kind: string)
    ensures LastOf(a + b, kind) == if LastOf(b, kind).Some? then LastOf(b, kind) else LastOf(a, kind)
    decreases |b|
  {
    if b == [] {
      assert a + b == a;
    } else {
      var last := |b| - 1;
      assert (a + b)[..|a + b| - 1] == a + b[..last];
      LastConcat(a, b[..last], kind);
    }
  }

  lemma LastSnoc(events: seq<Event>, ev: Event, kind: string)
    ensures LastOf(events + [ev], kind) == if OfKind(ev, kind) then Some(ev.body) else LastOf(events, kind)
  {
    assert (events + [ev])[..|events|] == events;
  }

  /** Replacing the only event of its type. */
  lemma {:induction false} LastReplaced(events: seq<Event>, i: nat, ev: Event, kind: string)
    requires i < |events| && ev.Ephemeral? && OfKind(events[i], ev.kind)
    requires forall j :: i < j < |events| ==> !OfKind(events[j], ev.kind)
    ensures LastOf(events[i := ev], kind) == if OfKind(ev, kind) then Some(ev.body) else LastOf(events, kind)
    decreases |events|
  {
    var last := |events| - 1;
    if i == last {
      assert events[i := ev][..last] == events[..last];
    } else {
      assert events[i := ev][..last] == events[..last][i := ev];
      LastReplaced(events[..last], i, ev, kind);
    }
  }

  // ---- What a connection carries ----

  function InFlightEvents(flight: Flight): seq<Event> {
    if flight.Checked? then [flight.ev] else []
  }

  function Todo(replay: Replay): seq<Event> {
    if replay.Draining? then replay.todo else []
  }

  /** Everything written to the connection and everything still on its way there, in order. */
  function Carried(conn: Conn): seq<Event> {
    conn.wire + (InFlightEvents(conn.flight) + (Todo(conn.replay) + conn.sub.buffered))
  }

  lemma LastCarried(conn: Conn, kind: string)
    ensures LastOf(Carried(conn), kind) ==
            if LastOf(conn.sub.buffered, kind).Some? then LastOf(conn.sub.buffered, kind)
            else if LastOf(Todo(conn.replay), kind).Some? then LastOf(Todo(conn.replay), kind)
            else if LastOf(InFlightEvents(conn.flight), kind).Some? then LastOf(InFlightEvents(conn.flight), kind)
            else LastOf(conn.wire, kind)
  {
    var buffered := conn.sub.buffered;
    LastConcat(conn.wire, InFlightEvents(conn.flight) + (Todo(conn.replay) + buffered), kind);
    LastConcat(InFlightEvents(conn.flight), Todo(conn.replay) + buffered, kind);
    LastConcat(Todo(conn.replay), buffered, kind);
    hide LastOf;
  }

  /** An ephemeral of this type is taken: written at once, put in its slot, or buffered while there is room. */
  predicate Takes(conn: Conn, kind: string) {
    if conn.sub.replaying then
      || (exists i :: 0 <= i < |conn.sub.buffered| && OfKind(conn.sub.buffered[i], kind))
      || |conn.sub.buffered| < MAX_REPLAY_BUFFERED_EVENTS
    else !conn.closed
  }

  /** What one ephemeral leaves in the buffer as the newest of each type. */
  lemma BufferLaw(s: Subscription, ev: Event, kind: string)
    requires WellFormed(s) && s.replaying && ev.Ephemeral?
    ensures var room := ev.kind in s.bufferedEphemerals || |s.buffered| < MAX_REPLAY_BUFFERED_EVENTS;
            LastOf(Offer(s, ev).buffered, kind) ==
            if ev.kind == kind && room then Some(ev.body) else LastOf(s.buffered, kind)
  {
    if Coalesces(s, ev) {
      var i := s.bufferedEphemerals[ev.kind];
      assert forall j :: 0 <= j < |s.buffered| && OfKind(s.buffered[j], ev.kind) ==> j == i;
      LastReplaced(s.buffered, i, ev, kind);
    } else {
      LastSnoc(s.buffered, ev, kind);
    }
    hide LastOf;
  }

  /** What one ephemeral sent to a connection leaves as the newest of each type. */
  lemma SendLaw(conn: Conn, role: Role, latest: nat, hidden: set<nat>, sent: string, body: int, kind: string)
    requires SubOk(conn, role)
    ensures LastOf(Carried(ConnNext(conn, SendEphemeral(sent, body), latest, hidden)), kind) ==
            if sent == kind && Takes(conn, sent) then Some(body) else LastOf(Carried(conn), kind)
  {
    var ev := Ephemeral(sent, body);
    var conn' := ConnNext(conn, SendEphemeral(sent, body), latest, hidden);
    SlotExists(conn.sub, sent);
    if conn.sub.replaying {
      assert conn' == conn.(sub := Offer(conn.sub, ev));
      BufferLaw(conn.sub, ev, kind);
      LastCarried(conn, kind);
      LastCarried(conn', kind);
      hide Carried, LastOf, Offer, WellFormed, ConnNext;
    } else {
      assert Carried(conn) == conn.wire && Carried(conn') == conn'.wire;
      LastSnoc(conn.wire, ev, kind);
      hide Carried, LastOf, WellFormed;
    }
  }

  lemma SlotExists(s: Subscription, kind: string)
    requires WellFormed(s)
    ensures kind in s.bufferedEphemerals <==> exists i :: 0 <= i < |s.buffered| && OfKind(s.buffered[i], kind)
  {
    if kind in s.bufferedEphemerals {
      assert OfKind(s.buffered[s.bufferedEphemerals[kind]], kind);
    }
  }

  lemma SameCarried(conn: Conn, step: ConnStep, latest: nat, hidden: set<nat>)
    requires ConnEnabled(conn, step, latest) && !ConnNext(conn, step, latest, hidden).replay.Halted?
    requires !step.SendEphemeral? && !step.Yield? && !step.Drain? && !step.WriteFlight?
    ensures Carried(ConnNext(conn, step, latest, hidden)) == Carried(conn)
  {
  }

  lemma YieldLaw(conn: Conn, latest: nat, hidden: set<nat>, kind: string)
    requires ConnEnabled(conn, Yield, latest)
    ensures LastOf(Carried(ConnNext(conn, Yield, latest, hidden)), kind) == LastOf(Carried(conn), kind)
  {
    var conn' := ConnNext(conn, Yield, latest, hidden);
    assert InFlightEvents(conn.flight) == [];
    LastSnoc([], Durable(conn.replay.next + 1), kind);
    assert [] + [Durable(conn.replay.next + 1)] == [Durable(conn.replay.next + 1)];
    assert LastOf(InFlightEvents(conn'.flight), kind) == None;
    LastCarried(conn, kind);
    LastCarried(conn', kind);
    hide Carried, LastOf;
  }

  /** No other step of the connection changes it, unless its replay ends with an error. */
  lemma OtherStepLaw(conn: Conn, step: ConnStep, latest: nat, hidden: set<nat>, kind: string)
    requires ConnEnabled(conn, step, latest) && !step.SendEphemeral?
    requires !ConnNext(conn, step, latest, hidden).replay.Halted?
    ensures LastOf(Carried(ConnNext(conn, step, latest, hidden)), kind) == LastOf(Carried(conn), kind)
  {
    if step.WriteFlight? {
      WriteOrder(conn, ConnNext(conn, step, latest, hidden), kind);
    } else if step.Drain? {
      DrainOrder(conn, ConnNext(conn, step, latest, hidden), latest, hidden, kind);
    } else if step.Yield? {
      YieldLaw(conn, latest, hidden, kind);
    } else {
      SameCarried(conn, step, latest, hidden);
    }
    hide LastOf, Carried;
  }

  lemma WriteOrder(conn: Conn, conn': Conn, kind: string)
    requires conn.flight.Checked? && conn'.flight == Written(conn.flight.ev)
    requires conn'.wire == conn.wire + [conn.flight.ev]
    requires conn'.replay == conn.replay && conn'.sub == conn.sub
    ensures LastOf(Carried(conn'), kind) == LastOf(Carried(conn), kind)
  {
    assert Carried(conn') == Carried(conn);
  }

  lemma DrainOrder(conn: Conn, conn': Conn, latest: nat, hidden: set<nat>, kind: string)
    requires ConnEnabled(conn, Drain, latest) && conn' == ConnNext(conn, Drain, latest, hidden)
    ensures LastOf(Carried(conn'), kind) == LastOf(Carried(conn), kind)
  {
    LastCarried(conn, kind);
    LastCarried(conn', kind);
    hide Carried;
    var ev, rest := conn.replay.todo[0], conn.replay.todo[1..];
    assert conn.replay.todo == [ev] + rest;
    LastConcat([ev], rest, kind);
    LastSnoc([], ev, kind);
    assert [] + [ev] == [ev];
  }

  // ---- The newest ephemeral over a run ----

  /** A durable event offered or written to the connection, or marked as sent. */
  ghost predicate DurableOnly(conn: Conn, conn': Conn) {
    && conn'.replay == conn.replay && conn'.flight == conn.flight && conn'.closed == conn.closed
    && exists n :: conn' == conn.(sub := Offer(conn.sub, Durable(n)), offers := conn'.offers) ||
                   conn' == Write(conn, Durable(n)) || conn' == conn.(sub := MarkSent(conn.sub, Durable(n)))
  }

  lemma DurableLaw(conn: Conn, conn': Conn, kind: string)
    requires DurableOnly(conn, conn')
    ensures LastOf(Carried(conn'), kind) == LastOf(Carried(conn), kind)
  {
    var n :| conn' == conn.(sub := Offer(conn.sub, Durable(n)), offers := conn'.offers) ||
             conn' == Write(conn, Durable(n)) || conn' == conn.(sub := MarkSent(conn.sub, Durable(n)));
    LastCarried(conn, kind);
    LastCarried(conn', kind);
    LastSnoc(conn.wire, Durable(n), kind);
    LastSnoc(conn.sub.buffered, Durable(n), kind);
    hide Carried, LastOf;
  }

  lemma PublisherLeaves(h: Hub, step: PublisherStep, c: nat)
    requires PublisherEnabled(h, step) && c in h.conns
    ensures c in PublisherNext(h, step).conns
    ensures PublisherNext(h, step).conns[c] == h.conns[c] || DurableOnly(h.conns[c], PublisherNext(h, step).conns[c])
  {
    var h' := PublisherNext(h, step);
    if h'.conns[c] != h.conns[c] {
      var ev := Durable(h.publication.value.queue[0]);
      var conn, conn' := h.conns[c], h'.conns[c];
      assert conn' == conn.(sub := Offer(conn.sub, ev), offers := conn'.offers) || conn' == Write(conn, ev) ||
             conn' == conn.(sub := MarkSent(conn.sub, ev));
    }
  }

  /** The step sends this ephemeral to the connection, which takes it. */
  predicate Keeps(sys: System, step: SystemStep, c: nat, kind: string, body: int) {
    step == GatedDelivery.AtHub(OnConn(c, SendEphemeral(kind, body))) && c in sys.hub.conns &&
    Takes(sys.hub.conns[c], kind)
  }

  /** The step sends the connection an ephemeral of this type, which it takes. */
  predicate Supersedes(sys: System, step: SystemStep, c: nat, kind: string) {
    && step.AtHub? && step.hub.OnConn? && step.hub.c == c
    && step.hub.conn.SendEphemeral? && step.hub.conn.kind == kind && c in sys.hub.conns && Takes(sys.hub.conns[c], kind)
  }

  predicate Halted(sys: System, c: nat) {
    c in sys.hub.conns && sys.hub.conns[c].replay.Halted?
  }

  predicate Newest(sys: System, c: nat, kind: string, body: int) {
    c in sys.hub.conns && LastOf(Carried(sys.hub.conns[c]), kind) == Some(body)
  }

  lemma ConnIsOk(sys: System, c: nat) returns (role: Role)
    requires GatedDelivery.SystemOk(sys) && c in sys.hub.conns
    ensures SubOk(sys.hub.conns[c], role)
  {
    var h := GatedDelivery.Serial(sys);
    role := RoleOf(h, c);
    assert ConnOk(h.conns[c], role, h.latest, h.hidden, h.abandoned);
  }

  lemma StepNewest(sys: System, step: SystemStep, c: nat, kind: string, body: int)
    requires GatedDelivery.SystemOk(sys) && GatedDelivery.Enabled(sys, step)
    requires !Halted(GatedDelivery.Next(sys, step), c)
    ensures !Halted(sys, c)
    ensures Newest(GatedDelivery.Next(sys, step), c, kind, body) <==>
            || Keeps(sys, step, c, kind, body)
            || (Newest(sys, c, kind, body) && !Supersedes(sys, step, c, kind))
  {
    var sys' := GatedDelivery.Next(sys, step);
    if c in sys.hub.conns {
      var role := ConnIsOk(sys, c);
      var conn := sys.hub.conns[c];
      hide GatedDelivery.SystemOk;
      if step.PublishAs? {
        PublisherLeaves(GatedDelivery.ViewOf(sys, step.ticket), step.publisher, c);
        hide PublisherNext, PublisherEnabled;
        if sys'.hub.conns[c] != conn {
          DurableLaw(conn, sys'.hub.conns[c], kind);
        }
      } else if step.AtHub? && step.hub.OnConn? && step.hub.c == c {
        ConnStepNewest(conn, step.hub.conn, role, sys.hub.latest, sys.hub.hidden, kind);
        assert Keeps(sys, step, c, kind, body) <==> Sends(conn, step.hub.conn, kind) == Some(body);
        assert Supersedes(sys, step, c, kind) <==> Sends(conn, step.hub.conn, kind).Some?;
        hide ConnNext, ConnEnabled, Takes;
      }
    } else {
      NewConnIsEmpty(sys, step, c, kind);
    }
  }

  /** The body that the step hands to the connection under this type, if it is taken. */
  function Sends(conn: Conn, step: ConnStep, kind: string): Option<int> {
    if step.SendEphemeral? && step.kind == kind && Takes(conn, kind) then Some(step.body) else None
  }

  lemma ConnStepNewest(conn: Conn, step: ConnStep, role: Role, latest: nat, hidden: set<nat>, kind: string)
    requires SubOk(conn, role) && ConnEnabled(conn, step, latest)
    requires !ConnNext(conn, step, latest, hidden).replay.Halted?
    ensures !conn.replay.Halted?
    ensures LastOf(Carried(ConnNext(conn, step, latest, hidden)), kind) ==
            if Sends(conn, step, kind).Some? then Sends(conn, step, kind) else LastOf(Carried(conn), kind)
  {
    if step.SendEphemeral? {
      SendLaw(conn, role, latest, hidden, step.kind, step.body, kind);
    } else {
      OtherStepLaw(conn, step, latest, hidden, kind);
    }
    hide LastOf, Carried, Takes;
  }

  lemma NewConnIsEmpty(sys: System, step: SystemStep, c: nat, kind: string)
    requires GatedDelivery.Enabled(sys, step) && c !in sys.hub.conns
    ensures var sys' := GatedDelivery.Next(sys, step);
            c in sys'.hub.conns ==> LastOf(Carried(sys'.hub.conns[c]), kind) == None
  {
  }

  ghost predicate NewestAt(trace: seq<System>, steps: seq<SystemStep>, j: nat, n: nat, c: nat, kind: string, body: int)
    requires j < n <= |steps| < |trace|
  {
    Keeps(trace[j], steps[j], c, kind, body) && forall k :: j < k < n ==> !Supersedes(trace[k], steps[k], c, kind)
  }

  /**
    In every run, what a connection carries last of each type of ephemeral, be it written, in flight or
    waiting, is exactly the newest one sent to it that it took, as long as its replay did not end with an error.
  */
  lemma {:induction false} NewestEphemeral(
    trace: seq<System>, steps: seq<SystemStep>, n: nat, c: nat, kind: string, body: int)
    requires Run(trace, steps) && n < |trace| && !Halted(trace[n], c)
    ensures Newest(trace[n], c, kind, body) <==>
            exists j: nat :: j < n && NewestAt(trace, steps, j, n, c, kind, body)
    decreases n
  {
    hide Run, NewestAt, GatedDelivery.SystemOk, GatedDelivery.Next, GatedDelivery.Enabled, Newest, Keeps, Halted,
      Supersedes;
    if n == 0 {
      NoConnsAtFirst(trace, steps, c, kind, body);
    } else {
      NewestStep(trace, steps, n, c, kind, body);
      NewestEphemeral(trace, steps, n - 1, c, kind, body);
      NewestOneMore(trace, steps, n, c, kind, body);
      if Newest(trace[n - 1], c, kind, body) {
        var j: nat :| j < n - 1 && NewestAt(trace, steps, j, n - 1, c, kind, body);
        assert NewestAt(trace, steps, j, n, c, kind, body) <==> !Supersedes(trace[n - 1], steps[n - 1], c, kind);
      }
      if exists j: nat :: j < n && NewestAt(trace, steps, j, n, c, kind, body) {
        var j: nat :| j < n && NewestAt(trace, steps, j, n, c, kind, body);
        assert j < n - 1 ==> NewestAt(trace, steps, j, n - 1, c, kind, body);
      }
    }
  }

  lemma NoConnsAtFirst(trace: seq<System>, steps: seq<SystemStep>, c: nat, kind: string, body: int)
    requires Run(trace, steps)
    ensures |trace| > 0 && !Newest(trace[0], c, kind, body)
  {
  }

  lemma NewestStep(trace: seq<System>, steps: seq<SystemStep>, n: nat, c: nat, kind: string, body: int)
    requires Run(trace, steps) && 0 < n < |trace| && !Halted(trace[n], c)
    ensures |steps| == |trace| - 1 && !Halted(trace[n - 1], c)
    ensures Newest(trace[n], c, kind, body) <==>
            || Keeps(trace[n - 1], steps[n - 1], c, kind, body)
            || (Newest(trace[n - 1], c, kind, body) && !Supersedes(trace[n - 1], steps[n - 1], c, kind))
  {
    hide GatedDelivery.SystemOk, GatedDelivery.Next, GatedDelivery.Enabled, Newest, Keeps, Halted, Supersedes;
    RunOk(trace, steps, n - 1);
    StepNewest(trace[n - 1], steps[n - 1], c, kind, body);
  }

  lemma NewestOneMore(trace: seq<System>, steps: seq<SystemStep>, n: nat, c: nat, kind: string, body: int)
    requires 0 < n <= |steps| < |trace|
    ensures NewestAt(trace, steps, n - 1, n, c, kind, body) <==> Keeps(trace[n - 1], steps[n - 1], c, kind, body)
    ensures forall j: nat :: j < n - 1 ==>
              (NewestAt(trace, steps, j, n, c, kind, body) <==>
               NewestAt(trace, steps, j, n - 1, c, kind, body) && !Supersedes(trace[n - 1], steps[n - 1], c, kind))
  {
    hide Keeps, Supersedes;
  }

  /** Once replay has handed over to live sends, all of that is on the wire. */
  lemma LiveCarriesWire(trace: seq<System>, steps: seq<SystemStep>, n: nat, c: nat)
    requires Run(trace, steps) && n < |trace| && c in trace[n].hub.conns && trace[n].hub.conns[c].replay.Finished?
    ensures Carried(trace[n].hub.conns[c]) == trace[n].hub.conns[c].wire
  {
    RunOk(trace, steps, n);
    var role := ConnIsOk(trace[n], c);
  }

  // ---- A socket that was closed ----

  predicate IsClosed(sys: System, c: nat) {
    c in sys.hub.conns && sys.hub.conns[c].closed
  }

  predicate Disconnects(sys: System, step: SystemStep, c: nat) {
    step == GatedDelivery.AtHub(OnConn(c, Disconnect)) && c in sys.hub.conns
  }

  lemma StepCloses(sys: System, step: SystemStep, c: nat)
    requires GatedDelivery.Enabled(sys, step)
    ensures IsClosed(GatedDelivery.Next(sys, step), c) <==> IsClosed(sys, c) || Disconnects(sys, step, c)
    ensures IsClosed(sys, c) ==> GatedDelivery.Next(sys, step).hub.conns[c].wire == sys.hub.conns[c].wire
  {
    if step.PublishAs? {
      PublisherCloses(GatedDelivery.ViewOf(sys, step.ticket), step.publisher, c);
      hide PublisherNext, PublisherEnabled;
    }
  }

  lemma PublisherCloses(h: Hub, step: PublisherStep, c: nat)
    requires PublisherEnabled(h, step)
    ensures c in PublisherNext(h, step).conns <==> c in h.conns
    ensures c in h.conns ==> PublisherNext(h, step).conns[c].closed == h.conns[c].closed
    ensures c in h.conns && h.conns[c].closed ==> PublisherNext(h, step).conns[c].wire == h.conns[c].wire
  {
  }

  ghost predicate DisconnectedAt(trace: seq<System>, steps: seq<SystemStep>, j: nat, c: nat)
    requires j < |steps| < |trace|
  {
    Disconnects(trace[j], steps[j], c)
  }

  /** A connection is closed exactly when its client disconnected, and nothing is written to it from then on. */
  lemma {:induction false} ClosedIff(trace: seq<System>, steps: seq<SystemStep>, n: nat, c: nat)
    requires Run(trace, steps) && n < |trace|
    ensures IsClosed(trace[n], c) <==> exists j: nat :: j < n && DisconnectedAt(trace, steps, j, c)
    ensures n > 0 && IsClosed(trace[n - 1], c) ==>
              IsClosed(trace[n], c) && trace[n].hub.conns[c].wire == trace[n - 1].hub.conns[c].wire
    decreases n
  {
    hide GatedDelivery.Next, GatedDelivery.Enabled;
    if n > 0 {
      ClosedIff(trace, steps, n - 1, c);
      StepCloses(trace[n - 1], steps[n - 1], c);
      assert DisconnectedAt(trace, steps, n - 1, c) == Disconnects(trace[n - 1], steps[n - 1], c);
      hide Run, DisconnectedAt, Disconnects;
    }
  }

  // ---- A publication that finishes ----

  /** The events that a publication starts with. */
  predicate Starts(h: Hub, step: PublisherStep, s: nat) {
    match step
    case Append(count) => h.latest < s <= h.latest + count
    case Republish(n) => s == n
    case _ => false
  }

  /** The publication still has to come to the event. */
  predicate Ahead(p: Publication, s: nat) {
    s in (if p.snapped && p.queue != [] then p.queue[1..] else p.queue)
  }

  /** The event was broadcast, and the connection was offered it, is about to be, or is no longer fed. */
  predicate Served(h: Hub, p: Publication, c: nat, s: nat) {
    && s in h.broadcast
    && (|| c !in h.registered || c !in h.conns || s in h.conns[c].offers
        || (p.snapped && p.queue != [] && p.queue[0] == s && (c in p.targets || p.sending == Broken(c))))
  }

  predicate UnderWay(sys: System, t: nat, c: nat, s: nat) {
    t in sys.publications && (Ahead(sys.publications[t], s) || Served(sys.hub, sys.publications[t], c, s))
  }

  predicate Over(step: SystemStep, t: nat) {
    step.PublishAs? && step.ticket == t && (step.publisher.Finish? || step.publisher.Abandon?)
  }

  lemma PublisherServes(h: Hub, step: PublisherStep, c: nat, s: nat)
    requires PublisherEnabled(h, step) && h.publication.Some? && !step.Finish? && !step.Abandon?
    requires Ahead(h.publication.value, s) || Served(h, h.publication.value, c, s)
    requires c in h.conns
    ensures var h' := PublisherNext(h, step);
            h'.publication.Some? && (Ahead(h'.publication.value, s) || Served(h', h'.publication.value, c, s))
  {
    var p := h.publication.value;
    var h' := PublisherNext(h, step);
    if step.Snapshot? {
      assert p.queue == [p.queue[0]] + p.queue[1..];
    }
    hide Offer, MarkSent;
  }

  lemma ConnStepServes(sys: System, step: SystemStep, t: nat, c: nat, s: nat)
    requires GatedDelivery.Enabled(sys, step) && !step.PublishAs? && c in sys.hub.conns && UnderWay(sys, t, c, s)
    ensures c in GatedDelivery.Next(sys, step).hub.conns && UnderWay(GatedDelivery.Next(sys, step), t, c, s)
  {
    var hub, hub' := sys.hub, GatedDelivery.Next(sys, step).hub;
    assert GatedDelivery.Next(sys, step).publications == sys.publications && hub'.broadcast == hub.broadcast;
    assert hub'.registered == hub.registered || step.AtHub?;
    assert c in hub'.conns && hub'.conns[c].offers == hub.conns[c].offers;
    assert c in hub'.registered ==> c in hub.registered by {
      assert step.AtHub? && step.hub.Register? ==> step.hub.c != c;
    }
    hide GatedDelivery.Next, GatedDelivery.Enabled;
  }

  lemma OtherTicketWaits(sys: System, step: SystemStep, t: nat)
    requires GatedDelivery.SystemOk(sys) && GatedDelivery.Enabled(sys, step) && t in sys.publications
    ensures step.PublishAs? ==> step.ticket == t
  {
    if step.PublishAs? {
      GatedDelivery.AtMostOnePublication(sys, step.ticket, t);
    }
  }

  lemma StepServes(sys: System, step: SystemStep, t: nat, c: nat, s: nat)
    requires GatedDelivery.SystemOk(sys) && GatedDelivery.Enabled(sys, step) && c in sys.hub.conns
    requires UnderWay(sys, t, c, s) && !Over(step, t)
    ensures c in GatedDelivery.Next(sys, step).hub.conns && UnderWay(GatedDelivery.Next(sys, step), t, c, s)
  {
    OtherTicketWaits(sys, step, t);
    hide GatedDelivery.SystemOk;
    if step.PublishAs? {
      var view := GatedDelivery.ViewOf(sys, t);
      PublisherServes(view, step.publisher, c, s);
      PublisherLeaves(view, step.publisher, c);
      hide PublisherNext, PublisherEnabled, Ahead;
    } else {
      ConnStepServes(sys, step, t, c, s);
    }
  }

  ghost predicate Uninterrupted(steps: seq<SystemStep>, i: nat, n: nat, t: nat)
    requires n <= |steps|
  {
    forall k :: i < k < n ==> !Over(steps[k], t)
  }

  lemma StartIsUnderWay(sys: System, step: SystemStep, c: nat, s: nat)
    requires GatedDelivery.Enabled(sys, step) && step.PublishAs? && Starts(sys.hub, step.publisher, s)
    requires c in sys.hub.conns
    ensures c in GatedDelivery.Next(sys, step).hub.conns
    ensures UnderWay(GatedDelivery.Next(sys, step), step.ticket, c, s)
  {
    if step.publisher.Append? {
      var queue := Range(sys.hub.latest, step.publisher.count);
      assert queue[s - sys.hub.latest - 1] == s;
    }
  }

  lemma {:induction false} StaysUnderWay(
    trace: seq<System>, steps: seq<SystemStep>, i: nat, n: nat, t: nat, c: nat, s: nat)
    requires Run(trace, steps) && i < n < |trace| && c in trace[i].hub.conns
    requires steps[i].PublishAs? && steps[i].ticket == t && Starts(trace[i].hub, steps[i].publisher, s)
    requires Uninterrupted(steps, i, n, t)
    ensures c in trace[n].hub.conns && UnderWay(trace[n], t, c, s)
    decreases n
  {
    hide GatedDelivery.Next, GatedDelivery.Enabled, GatedDelivery.SystemOk, UnderWay, Starts, Over;
    if n == i + 1 {
      StartIsUnderWay(trace[i], steps[i], c, s);
    } else {
      StaysUnderWay(trace, steps, i, n - 1, t, c, s);
      RunOk(trace, steps, n - 1);
      StepServes(trace[n - 1], steps[n - 1], t, c, s);
    }
  }

  /**
    When a publication finishes, each event it started with, appended or republished, was broadcast and was
    offered to every connection that was there when it started and is still registered.
  */
  lemma FinishedIsOffered(trace: seq<System>, steps: seq<SystemStep>, i: nat, n: nat, t: nat, c: nat, s: nat)
    requires Run(trace, steps) && i < n < |steps| && c in trace[i].hub.conns
    requires steps[i].PublishAs? && steps[i].ticket == t && Starts(trace[i].hub, steps[i].publisher, s)
    requires Uninterrupted(steps, i, n, t) && steps[n] == GatedDelivery.PublishAs(t, Finish)
    ensures c in trace[n].hub.conns && s in trace[n].hub.broadcast
    ensures c in trace[n].hub.registered ==> s in trace[n].hub.conns[c].offers
  {
    StaysUnderWay(trace, steps, i, n, t, c, s);
    assert GatedDelivery.Enabled(trace[n], steps[n]);
    hide GatedDelivery.Next, Run;
  }
}
