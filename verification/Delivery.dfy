/**
  Event delivery for one Session: durable publications, their fan-out to every subscribed
  connection, and each connection's replay-to-live handoff, as interleaved steps.

  A connection's replay thread and the publisher run concurrently. Every critical section of the
  source is one step; a write to the socket and the `markSent` that follows it are steps of their
  own. Durable events are numbered 1, 2, ... by the Store, `latest` being the newest. At most one
  publication is in progress here; `GatedDelivery` derives that from the publication gate.
*/
module Delivery {
  import opened Wrappers
  import opened Subscriptions

  /** Progress of `replayAccepted` for a connection. `Halted` is a replay that returned an error. */
  datatype Replay =
    | Pending
    | Replaying(next: nat, floor: nat)  // yielded up to `next`; must reach `floor`, the latest at its start
    | Draining(todo: seq<Event>)        // inside `finishReplay`, with a taken buffer
    | Finished
    | Halted

  /** A replay-thread event between its staleness check, its socket write and its `markSent`. */
  datatype Flight = Idle | Checked(ev: Event) | Written(ev: Event)

  /**
    `start` is the cursor sent in hello. The rest is history: `joined` the latest event at registration,
    `tip` the highest event written or filtered so far, `yielded` the highest one that replay dealt with,
    and `offers` the events that publications broadcast to the connection, oldest first.
  */
  datatype Conn = Conn(
    start: nat, joined: nat, sub: Subscription, replay: Replay, flight: Flight,
    wire: seq<Event>, tip: nat, closed: bool, yielded: nat, offers: seq<nat>)

  /** The live send in progress. `Broken` is a send that failed, before its client is unregistered. */
  datatype LiveSend = NoSend | Send(target: nat, written: bool) | Broken(target: nat)

  /** The events still to broadcast; `targets` are the snapshot's clients not served yet for `queue[0]`. */
  datatype Publication = Publication(queue: seq<nat>, snapped: bool, targets: set<nat>, sending: LiveSend)

  /**
    `hidden` are old events of a filtered type; no event appended from now on has one. `broadcast` are the
    events that a publication has broadcast, and `abandoned` those never broadcast when their publication
    returned after the append; both are history.
  */
  datatype Hub = Hub(
    latest: nat, hidden: set<nat>, conns: map<nat, Conn>, registered: set<nat>,
    publication: Option<Publication>, broadcast: set<nat>, abandoned: set<nat>)

  /** Steps of a connection's own thread, the client closing it, and an ephemeral sent to it by any thread. */
  datatype ConnStep =
    | StartReplay
    | Yield
    | WriteFlight
    | MarkFlight
    | FailFlight
    | EndReplay
    | AbortReplay
    | Take
    | Drain
    | Disconnect
    | SendEphemeral(kind: string, body: int)

  datatype PublisherStep =
    | Append(count: nat)
    | Republish(n: nat)
    | Abandon
    | Snapshot
    | OfferTo(c: nat)
    | WriteLive
    | MarkLive
    | FailLive
    | DropBroken
    | NextEvent
    | Finish

  datatype Step =
    | Register(c: nat, start: nat)
    | Unregister(c: nat)
    | OnConn(c: nat, conn: ConnStep)
    | Publish(publisher: PublisherStep)

  // ---- Steps of one connection ----

  function NewConn(start: nat, latest: nat): Conn {
    Conn(start, latest, Joined(start), Pending, Idle, [], start, false, start, [])
  }

  function Max(a: nat, b: nat): nat {
    if a > b then a else b
  }

  function Write(conn: Conn, ev: Event): Conn {
    conn.(wire := conn.wire + [ev], tip := if ev.Durable? then Max(conn.tip, ev.seqNo) else conn.tip)
  }

  predicate ConnEnabled(conn: Conn, step: ConnStep, latest: nat) {
    match step
    case StartReplay => conn.replay.Pending?
    case Yield => conn.replay.Replaying? && conn.flight.Idle? && conn.replay.next < latest
    case WriteFlight => conn.flight.Checked? && !conn.closed
    case MarkFlight => conn.flight.Written?
    case FailFlight => !conn.flight.Idle?
    case EndReplay => conn.replay.Replaying? && conn.flight.Idle? && conn.replay.next >= conn.replay.floor
    case AbortReplay => conn.replay.Replaying? && conn.flight.Idle?
    case Take => conn.replay == Draining([]) && conn.flight.Idle?
    case Drain => conn.replay.Draining? && conn.replay.todo != [] && conn.flight.Idle?
    case Disconnect => true
    case SendEphemeral(_, _) => true
  }

  function ConnNext(conn: Conn, step: ConnStep, latest: nat, hidden: set<nat>): Conn
    requires ConnEnabled(conn, step, latest)
  {
    match step
    case StartReplay => conn.(replay := Replaying(conn.start, latest))
    case Yield =>
      var n := conn.replay.next + 1;
      if n in hidden then
        conn.(sub := MarkSent(conn.sub, Durable(n)), replay := conn.replay.(next := n), tip := Max(conn.tip, n),
              yielded := Max(conn.tip, n))
      else conn.(flight := Checked(Durable(n)))
    case WriteFlight =>
      var conn' := Write(conn, conn.flight.ev);
      conn'.(flight := Written(conn.flight.ev), yielded := if conn.replay.Replaying? then conn'.tip else conn.yielded)
    case MarkFlight =>
      conn.(sub := MarkSent(conn.sub, conn.flight.ev), flight := Idle,
            replay := if conn.replay.Replaying? then conn.replay.(next := conn.replay.next + 1) else conn.replay)
    case FailFlight => conn.(flight := Idle, replay := Halted)
    case EndReplay => conn.(replay := Draining([]))
    case AbortReplay => conn.(replay := Halted)
    case Take =>
      conn.(sub := TakeBuffer(conn.sub),
            replay := if conn.sub.buffered == [] then Finished else Draining(conn.sub.buffered))
    case Drain =>
      var ev := conn.replay.todo[0];
      conn.(replay := Draining(conn.replay.todo[1..]),
            flight := if IsStale(ev, conn.sub.lastSeq) then Idle else Checked(ev))
    case Disconnect => conn.(closed := true)
    case SendEphemeral(kind, body) =>
      var ev := Ephemeral(kind, body);
      if Judge(conn.sub, ev) == Deliver then if conn.closed then conn else Write(conn, ev)
      else conn.(sub := Offer(conn.sub, ev))
  }

  // ---- What the publisher still owes one connection ----

  /** The current event as seen by one connection: queued for it, being sent to it, or written to it. */
  datatype Head = NoHead | Queued(n: nat) | InFlight(n: nat) | Sent(n: nat)

  /** `eligible`: registered and not about to be dropped, so every later event reaches it too. */
  datatype Role = Role(eligible: bool, head: Head, tail: seq<nat>)

  function RoleOf(h: Hub, c: nat): Role {
    if h.publication.None? then Role(c in h.registered, NoHead, [])
    else
      var p := h.publication.value;
      var eligible := c in h.registered && p.sending != Broken(c);
      var current := if p.snapped && p.queue != [] then
                       if p.sending == Send(c, false) then InFlight(p.queue[0])
                       else if p.sending == Send(c, true) then Sent(p.queue[0])
                       else if c in p.targets then Queued(p.queue[0]) else NoHead
                     else NoHead;
      Role(eligible, current, if !eligible then [] else if p.snapped && p.queue != [] then p.queue[1..] else p.queue)
  }

  function Owed(role: Role): seq<nat> {
    (if role.head.Queued? || role.head.InFlight? then [role.head.n] else []) + role.tail
  }

  // ---- The invariant of one connection ----

  /**
    `q` is what was written above `start` when everything up to `tip` has been dealt with: rising,
    only real and unfiltered events, and every one of them that was not abandoned.
  */
  ghost predicate Tidy(q: seq<nat>, start: nat, tip: nat, hidden: set<nat>, abandoned: set<nat>) {
    && start <= tip
    && Rising(q)
    && (forall s :: s in q ==> start < s <= tip && s !in hidden)
    && (forall s :: start < s <= tip && s !in hidden && s !in abandoned ==> s in q)
  }

  function FlightSeqs(flight: Flight): seq<nat> {
    if flight.Checked? && flight.ev.Durable? then [flight.ev.seqNo] else []
  }

  /** What the connection's own thread still has to go through once replay is over. */
  function Own(conn: Conn): seq<nat> {
    (if conn.replay.Draining? then FlightSeqs(conn.flight) + Seqs(conn.replay.todo) else []) + Seqs(conn.sub.buffered)
  }

  /** The mark from which the owed queue is processed. Replay itself will reach `floor`. */
  function Base(conn: Conn): nat {
    match conn.replay
    case Pending => Max(conn.joined, conn.tip)
    case Replaying(_, floor) => Max(floor, conn.tip)
    case Draining(_) => conn.tip
    case Finished => conn.tip
    case Halted => conn.tip
  }

  /** `lastSeq` agrees with what is on the wire, up to the one event between write and mark. */
  ghost predicate Linked(conn: Conn, role: Role, latest: nat, hidden: set<nat>) {
    match conn.replay
    case Pending => conn.flight.Idle? && conn.tip == conn.sub.lastSeq == conn.start && conn.joined <= latest
    case Replaying(next, floor) =>
      && next == conn.sub.lastSeq && conn.joined <= floor <= latest
      && match conn.flight {
           case Idle => conn.tip == next
           case Checked(ev) => conn.tip == next && ev == Durable(next + 1) && next + 1 !in hidden && next < latest
           case Written(ev) => ev == Durable(next + 1) && conn.tip == next + 1
         }
    case Draining(_) =>
      if conn.flight.Written? && conn.flight.ev.Durable? then conn.tip == conn.flight.ev.seqNo >= conn.sub.lastSeq
      else conn.tip == conn.sub.lastSeq && (FlightSeqs(conn.flight) != [] ==> conn.flight.ev.seqNo > conn.tip)
    case Finished =>
      && conn.flight.Idle?
      && (if role.head.Sent? then conn.tip == role.head.n >= conn.sub.lastSeq else conn.tip == conn.sub.lastSeq)
      && (role.head.InFlight? ==> role.head.n > conn.tip)
    case Halted => false
  }

  /** Somebody may still write a durable event to this connection. */
  predicate Alive(conn: Conn, role: Role) {
    !conn.replay.Halted? && (!conn.replay.Finished? || role.eligible || !role.head.NoHead?)
  }

  ghost predicate SubOk(conn: Conn, role: Role) {
    && WellFormed(conn.sub)
    && (conn.sub.replaying <==> !conn.replay.Finished?)
    && (role.head.InFlight? || role.head.Sent? ==> conn.replay.Finished?)
    && (conn.replay.Finished? || conn.replay.Halted? || conn.replay.Pending? ==> conn.flight.Idle?)
  }

  ghost predicate WireOk(conn: Conn, latest: nat, hidden: set<nat>, abandoned: set<nat>) {
    && Tidy(Seqs(conn.wire), conn.start, conn.tip, hidden, abandoned)
    && (forall s :: s in Seqs(conn.wire) ==> s <= latest)
  }

  ghost predicate Publishable(q: seq<nat>, latest: nat, hidden: set<nat>) {
    forall s :: s in q ==> s <= latest && s !in hidden
  }

  /** From `base` the queue leaves no gap, and for an eligible connection it reaches the latest event. */
  ghost predicate QueueOk(q: seq<nat>, base: nat, eligible: bool, latest: nat, abandoned: set<nat>) {
    && Gapless(q, base, abandoned)
    && (eligible ==> forall s :: Advance(q, base) < s <= latest ==> s in abandoned)
  }

  ghost predicate ConnOk(conn: Conn, role: Role, latest: nat, hidden: set<nat>, abandoned: set<nat>) {
    && SubOk(conn, role)
    && WireOk(conn, latest, hidden, abandoned)
    && Publishable(Own(conn) + Owed(role), latest, hidden)
    && (Alive(conn, role) ==>
          Linked(conn, role, latest, hidden) &&
          QueueOk(Own(conn) + Owed(role), Base(conn), role.eligible, latest, abandoned))
  }

  // ---- The Hub ----

  predicate PublisherEnabled(h: Hub, step: PublisherStep) {
    match step
    case Append(_) => h.publication.None?
    case Republish(n) => h.publication.None? && 0 < n <= h.latest && n !in h.hidden
    case Abandon => h.publication.Some? && !h.publication.value.snapped
    case Snapshot => h.publication.Some? && !h.publication.value.snapped && h.publication.value.queue != []
    case OfferTo(c) =>
      h.publication.Some? && h.publication.value.snapped && c in h.publication.value.targets && c in h.conns &&
      h.publication.value.queue != [] && h.publication.value.sending.NoSend?
    case WriteLive =>
      h.publication.Some? && h.publication.value.queue != [] && h.publication.value.sending.Send? &&
      !h.publication.value.sending.written && h.publication.value.sending.target in h.conns &&
      !h.conns[h.publication.value.sending.target].closed
    case MarkLive =>
      h.publication.Some? && h.publication.value.queue != [] && h.publication.value.sending.Send? &&
      h.publication.value.sending.written && h.publication.value.sending.target in h.conns
    case FailLive => h.publication.Some? && h.publication.value.sending.Send?
    case DropBroken => h.publication.Some? && h.publication.value.sending.Broken?
    case NextEvent =>
      h.publication.Some? && h.publication.value.snapped && h.publication.value.queue != [] &&
      h.publication.value.targets == {} && h.publication.value.sending.NoSend?
    case Finish => h.publication.Some? && !h.publication.value.snapped && h.publication.value.queue == []
  }

  predicate Enabled(h: Hub, step: Step) {
    match step
    case Register(c, _) => c !in h.conns
    case Unregister(c) => c in h.conns
    case OnConn(c, conn) => c in h.conns && ConnEnabled(h.conns[c], conn, h.latest)
    case Publish(publisher) => PublisherEnabled(h, publisher)
  }

  function Range(after: nat, count: nat): seq<nat> {
    seq(count, i requires 0 <= i < count => after + 1 + i)
  }

  function OfferStep(h: Hub, c: nat): Hub
    requires PublisherEnabled(h, OfferTo(c))
  {
    var p := h.publication.value;
    var conn := h.conns[c];
    var ev := Durable(p.queue[0]);
    var verdict := Judge(conn.sub, ev);
    var offers := if verdict == Overflow then conn.offers else conn.offers + [p.queue[0]];
    h.(conns := h.conns[c := conn.(sub := Offer(conn.sub, ev), offers := offers)],
       publication := Some(p.(targets := p.targets - {c},
                              sending := match verdict
                                         case Keep => NoSend
                                         case Stale => NoSend
                                         case Overflow => Broken(c)
                                         case Deliver => Send(c, false))))
  }

  function PublisherNext(h: Hub, step: PublisherStep): Hub
    requires PublisherEnabled(h, step)
  {
    match step
    case Append(count) =>
      h.(latest := h.latest + count, publication := Some(Publication(Range(h.latest, count), false, {}, NoSend)))
    case Republish(n) => h.(publication := Some(Publication([n], false, {}, NoSend)))
    case Abandon =>
      h.(publication := None,
         abandoned := h.abandoned + set s | s in h.publication.value.queue && s !in h.broadcast)
    case Snapshot =>
      h.(publication := Some(h.publication.value.(snapped := true, targets := h.registered)),
         broadcast := h.broadcast + {h.publication.value.queue[0]})
    case OfferTo(c) => OfferStep(h, c)
    case WriteLive =>
      var p := h.publication.value;
      var c := p.sending.target;
      h.(conns := h.conns[c := Write(h.conns[c], Durable(p.queue[0]))],
         publication := Some(p.(sending := Send(c, true))))
    case MarkLive =>
      var p := h.publication.value;
      var c := p.sending.target;
      var conn := h.conns[c];
      h.(conns := h.conns[c := conn.(sub := MarkSent(conn.sub, Durable(p.queue[0])))],
         publication := Some(p.(sending := NoSend)))
    case FailLive =>
      h.(publication := Some(h.publication.value.(sending := Broken(h.publication.value.sending.target))))
    case DropBroken =>
      h.(registered := h.registered - {h.publication.value.sending.target},
         publication := Some(h.publication.value.(sending := NoSend)))
    case NextEvent =>
      h.(publication := Some(Publication(h.publication.value.queue[1..], false, {}, NoSend)))
    case Finish => h.(publication := None)
  }

  function Next(h: Hub, step: Step): Hub
    requires Enabled(h, step)
  {
    match step
    case Register(c, start) =>
      h.(conns := h.conns[c := NewConn(start, h.latest)], registered := h.registered + {c})
    case Unregister(c) => h.(registered := h.registered - {c})
    case OnConn(c, conn) => h.(conns := h.conns[c := ConnNext(h.conns[c], conn, h.latest, h.hidden)])
    case Publish(publisher) => PublisherNext(h, publisher)
  }

  ghost predicate PublicationOk(h: Hub) {
    match h.publication
    case None => true
    case Some(p) =>
      && (forall n :: n in p.queue ==> n <= h.latest && n !in h.hidden)
      && p.targets <= h.conns.Keys
      && (p.snapped ==> p.queue != [])
      && (!p.snapped ==> p.targets == {} && p.sending == NoSend)
      && (p.sending != NoSend ==> p.sending.target in h.conns && p.sending.target !in p.targets)
  }

  ghost predicate StateOk(h: Hub) {
    && h.registered <= h.conns.Keys
    && (forall s :: s in h.hidden ==> s <= h.latest)
    && PublicationOk(h)
    && (forall c :: c in h.conns ==> ConnOk(h.conns[c], RoleOf(h, c), h.latest, h.hidden, h.abandoned))
  }

  // ---- The invariant of the history ----

  /** What was offered to the connection and is still on its way to the socket. */
  function Waiting(conn: Conn, role: Role): seq<nat> {
    Own(conn) + (if role.head.InFlight? then [role.head.n] else [])
  }

  /** Everything offered before what is still waiting lies at or below `tip`. */
  ghost predicate Processed(offers: seq<nat>, waiting: seq<nat>, tip: nat) {
    && |waiting| <= |offers| && offers[|offers| - |waiting|..] == waiting
    && forall k :: 0 <= k < |offers| - |waiting| ==> offers[k] <= tip
  }

  /** Up to `tip`, the wire holds exactly what replay yielded and what was offered in time. */
  ghost predicate WireIs(conn: Conn, hidden: set<nat>) {
    forall s :: conn.start < s <= conn.tip && s !in hidden ==>
      (s in Seqs(conn.wire) <==> s <= conn.yielded || InTime(conn.offers, s))
  }

  ghost predicate LogOk(conn: Conn, role: Role, hidden: set<nat>) {
    && conn.start <= conn.yielded <= conn.tip
    && (conn.yielded < conn.tip ==> conn.tip in conn.offers)
    && (conn.replay.Pending? || conn.replay.Replaying? ==> conn.yielded == conn.tip)
    && WireIs(conn, hidden)
    && (Alive(conn, role) ==> Processed(conn.offers, Waiting(conn, role), conn.tip))
  }

  /** Where an eligible connection will be once it has dealt with everything offered or queued for it so far. */
  function Reach(conn: Conn, role: Role): nat {
    Advance(Own(conn) + Owed(role.(tail := [])), Base(conn))
  }

  /** A connection that is still fed has or will have dealt with every event that was ever broadcast. */
  ghost predicate Reached(conn: Conn, role: Role, broadcast: set<nat>) {
    role.eligible && !conn.replay.Halted? ==> forall s :: s in broadcast ==> s <= Reach(conn, role)
  }

  ghost predicate HistoryOk(h: Hub) {
    && (forall s :: s in h.broadcast ==> s <= h.latest)
    && (forall c :: c in h.conns ==>
          LogOk(h.conns[c], RoleOf(h, c), h.hidden) && Reached(h.conns[c], RoleOf(h, c), h.broadcast))
  }

  ghost predicate HubOk(h: Hub) {
    StateOk(h) && HistoryOk(h)
  }
}
