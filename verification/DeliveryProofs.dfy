/** Every step of the delivery machine keeps its invariant. */
module DeliveryProofs {
  import opened Subscriptions
  import opened Delivery

  // ---- Facts about what is on the wire ----

  lemma TidyExtend(q: seq<nat>, start: nat, tip: nat, n: nat, hidden: set<nat>, abandoned: set<nat>)
    requires Tidy(q, start, tip, hidden, abandoned)
    requires tip < n && n !in hidden
    requires forall s :: tip < s < n ==> s in hidden || s in abandoned
    ensures Tidy(q + [n], start, n, hidden, abandoned)
  {
    assert forall i :: 0 <= i < |q| ==> q[i] in q;
  }

  lemma WriteDurable(conn: Conn, n: nat, hidden: set<nat>, abandoned: set<nat>)
    requires Tidy(Seqs(conn.wire), conn.start, conn.tip, hidden, abandoned)
    requires conn.tip < n && n !in hidden
    requires forall s :: conn.tip < s < n ==> s in abandoned
    ensures Write(conn, Durable(n)).tip == n
    ensures Seqs(Write(conn, Durable(n)).wire) == Seqs(conn.wire) + [n]
    ensures Tidy(Seqs(Write(conn, Durable(n)).wire), conn.start, n, hidden, abandoned)
  {
    SeqsSnoc(conn.wire, Durable(n));
    TidyExtend(Seqs(conn.wire), conn.start, conn.tip, n, hidden, abandoned);
  }

  // ---- Facts about queues ----

  lemma {:induction false} AllBelow(q: seq<nat>, mark: nat, excused: set<nat>)
    requires forall s :: s in q ==> s <= mark
    ensures Gapless(q, mark, excused) && Advance(q, mark) == mark
  {
    if q != [] {
      assert q[0] in q;
      assert forall s :: s in q[1..] ==> s in q;
      AllBelow(q[1..], mark, excused);
    }
  }

  /** A consecutive run is gapless when everything between the mark and its start is excused. */
  lemma {:induction false} RangeLaw(after: nat, count: nat, mark: nat, excused: set<nat>)
    requires forall s :: mark < s <= after ==> s in excused
    ensures Gapless(Range(after, count), mark, excused)
    ensures Advance(Range(after, count), mark) == Max(mark, if count == 0 then mark else after + count)
    decreases count
  {
    if count > 0 {
      assert Range(after, count)[1..] == Range(after + 1, count - 1);
      RangeLaw(after + 1, count - 1, Max(mark, after + 1), excused);
    }
  }

  /** Between the mark and where processing ends, everything is in the queue or excused. */
  lemma {:induction false} Accounted(q: seq<nat>, mark: nat, excused: set<nat>, s: nat)
    requires Gapless(q, mark, excused) && mark < s <= Advance(q, mark)
    ensures s in q || s in excused
  {
    if q != [] && s != q[0] {
      var next := if q[0] > mark then q[0] else mark;
      if s > next {
        Accounted(q[1..], next, excused, s);
      }
    }
  }

  lemma ConsLaw(n: nat, q: seq<nat>, mark: nat, excused: set<nat>)
    ensures ([n] + q)[1..] == q
    ensures Advance([n] + q, mark) == Advance(q, if n > mark then n else mark)
    ensures Gapless([n] + q, mark, excused) <==>
            if n > mark then (forall s :: mark < s < n ==> s in excused) && Gapless(q, n, excused)
            else Gapless(q, mark, excused)
  {
    assert ([n] + q)[1..] == q;
  }

  // ---- Steps of the connection's own thread ----

  lemma StartReplayKeeps(conn: Conn, role: Role, latest: nat, hidden: set<nat>, abandoned: set<nat>)
    requires ConnOk(conn, role, latest, hidden, abandoned) && ConnEnabled(conn, StartReplay, latest)
    ensures ConnOk(ConnNext(conn, StartReplay, latest, hidden), role, latest, hidden, abandoned)
  {
    RaiseMark(Own(conn) + Owed(role), Base(conn), Max(latest, conn.tip), abandoned);
  }

  lemma YieldHidden(conn: Conn, role: Role, latest: nat, hidden: set<nat>, abandoned: set<nat>)
    requires ConnOk(conn, role, latest, hidden, abandoned) && ConnEnabled(conn, Yield, latest)
    requires conn.replay.next + 1 in hidden
    ensures ConnOk(ConnNext(conn, Yield, latest, hidden), role, latest, hidden, abandoned)
  {
    hide Gapless, Advance, Seqs, Owed;
    var conn' := ConnNext(conn, Yield, latest, hidden);
    assert Own(conn') == Own(conn);
    RaiseMark(Own(conn) + Owed(role), Base(conn), Base(conn'), abandoned);
    assert WireOk(conn', latest, hidden, abandoned);
    assert Linked(conn', role, latest, hidden);
  }

  lemma YieldVisible(conn: Conn, role: Role, latest: nat, hidden: set<nat>, abandoned: set<nat>)
    requires ConnOk(conn, role, latest, hidden, abandoned) && ConnEnabled(conn, Yield, latest)
    requires conn.replay.next + 1 !in hidden
    ensures ConnOk(ConnNext(conn, Yield, latest, hidden), role, latest, hidden, abandoned)
  {
    hide Gapless, Advance, Owed, Seqs;
    var conn' := ConnNext(conn, Yield, latest, hidden);
    assert Own(conn') == Own(conn) && Base(conn') == Base(conn);
  }

  lemma WriteFlightReplaying(conn: Conn, role: Role, latest: nat, hidden: set<nat>, abandoned: set<nat>)
    requires ConnOk(conn, role, latest, hidden, abandoned) && ConnEnabled(conn, WriteFlight, latest)
    requires conn.replay.Replaying?
    ensures ConnOk(ConnNext(conn, WriteFlight, latest, hidden), role, latest, hidden, abandoned)
  {
    var n := conn.replay.next + 1;
    WriteDurable(conn, n, hidden, abandoned);
    RaiseMark(Own(conn) + Owed(role), Base(conn), Max(conn.replay.floor, n), abandoned);
  }

  lemma WriteFlightDurable(conn: Conn, role: Role, latest: nat, hidden: set<nat>, abandoned: set<nat>)
    requires ConnOk(conn, role, latest, hidden, abandoned) && ConnEnabled(conn, WriteFlight, latest)
    requires conn.replay.Draining? && conn.flight.ev.Durable?
    ensures ConnOk(ConnNext(conn, WriteFlight, latest, hidden), role, latest, hidden, abandoned)
  {
    var conn' := ConnNext(conn, WriteFlight, latest, hidden);
    var n := conn.flight.ev.seqNo;
    var rest := Own(conn') + Owed(role);
    assert Own(conn) + Owed(role) == [n] + rest;
    PublishableTail(n, rest, latest, hidden);
    ConsLaw(n, rest, conn.tip, abandoned);
    WriteDurable(conn, n, hidden, abandoned);
    assert conn'.tip == n && conn'.wire == Write(conn, Durable(n)).wire;
  }

  lemma PublishableTail(n: nat, rest: seq<nat>, latest: nat, hidden: set<nat>)
    requires Publishable([n] + rest, latest, hidden)
    ensures n <= latest && n !in hidden && Publishable(rest, latest, hidden)
  {
    assert ([n] + rest)[0] == n && n in [n] + rest;
    assert forall s :: s in rest ==> s in [n] + rest;
  }

  lemma WriteFlightEphemeral(conn: Conn, role: Role, latest: nat, hidden: set<nat>, abandoned: set<nat>)
    requires ConnOk(conn, role, latest, hidden, abandoned) && ConnEnabled(conn, WriteFlight, latest)
    requires conn.replay.Draining? && conn.flight.ev.Ephemeral?
    ensures ConnOk(ConnNext(conn, WriteFlight, latest, hidden), role, latest, hidden, abandoned)
  {
    SeqsSnoc(conn.wire, conn.flight.ev);
    assert Own(ConnNext(conn, WriteFlight, latest, hidden)) == Own(conn);
  }

  lemma MarkFlightKeeps(conn: Conn, role: Role, latest: nat, hidden: set<nat>, abandoned: set<nat>)
    requires ConnOk(conn, role, latest, hidden, abandoned) && ConnEnabled(conn, MarkFlight, latest)
    requires !conn.replay.Halted? && !conn.replay.Finished?
    ensures ConnOk(ConnNext(conn, MarkFlight, latest, hidden), role, latest, hidden, abandoned)
  {
    hide Gapless, Advance, Owed, Seqs, Tidy;
    assert Own(ConnNext(conn, MarkFlight, latest, hidden)) == Own(conn);
  }

  lemma EndReplayKeeps(conn: Conn, role: Role, latest: nat, hidden: set<nat>, abandoned: set<nat>)
    requires ConnOk(conn, role, latest, hidden, abandoned) && ConnEnabled(conn, EndReplay, latest)
    ensures ConnOk(ConnNext(conn, EndReplay, latest, hidden), role, latest, hidden, abandoned)
  {
    assert Own(ConnNext(conn, EndReplay, latest, hidden)) == Own(conn);
  }

  lemma TakeKeeps(conn: Conn, role: Role, latest: nat, hidden: set<nat>, abandoned: set<nat>)
    requires ConnOk(conn, role, latest, hidden, abandoned) && ConnEnabled(conn, Take, latest)
    ensures ConnOk(ConnNext(conn, Take, latest, hidden), role, latest, hidden, abandoned)
  {
    assert Own(ConnNext(conn, Take, latest, hidden)) == Own(conn);
  }

  /** A durable event taken from the front of the drained buffer was first in what the connection owes itself. */
  lemma DrainedHead(conn: Conn)
    requires conn.replay.Draining? && conn.replay.todo != [] && conn.replay.todo[0].Durable? && conn.flight.Idle?
    ensures Own(conn) == [conn.replay.todo[0].seqNo] + Own(conn.(replay := Draining(conn.replay.todo[1..])))
  {
    var n, others, buffered := conn.replay.todo[0].seqNo, Seqs(conn.replay.todo[1..]), Seqs(conn.sub.buffered);
    assert Seqs(conn.replay.todo) == [n] + others;
    hide Seqs;
    assert ([] + ([n] + others)) + buffered == [n] + (([] + others) + buffered);
  }

  lemma DrainStale(conn: Conn, role: Role, latest: nat, hidden: set<nat>, abandoned: set<nat>)
    requires ConnOk(conn, role, latest, hidden, abandoned) && ConnEnabled(conn, Drain, latest)
    requires IsStale(conn.replay.todo[0], conn.sub.lastSeq)
    ensures ConnOk(ConnNext(conn, Drain, latest, hidden), role, latest, hidden, abandoned)
  {
    hide Owed, Own, Seqs, Advance, Gapless, Tidy;
    var conn' := ConnNext(conn, Drain, latest, hidden);
    var n := conn.replay.todo[0].seqNo;
    var rest := Own(conn') + Owed(role);
    DrainedHead(conn);
    assert Own(conn) + Owed(role) == [n] + rest;
    PublishableTail(n, rest, latest, hidden);
    ConsLaw(n, rest, conn.tip, abandoned);
  }

  /** A fresh event moves from the front of the buffer into flight, which the connection owes itself just the same. */
  lemma FreshOwn(conn: Conn, latest: nat, hidden: set<nat>)
    requires ConnEnabled(conn, Drain, latest) && !IsStale(conn.replay.todo[0], conn.sub.lastSeq)
    ensures Own(ConnNext(conn, Drain, latest, hidden)) == Own(conn)
  {
    var ev, others, buffered := conn.replay.todo[0], Seqs(conn.replay.todo[1..]), Seqs(conn.sub.buffered);
    assert Seqs(conn.replay.todo) == FlightSeqs(Checked(ev)) + others;
    hide Seqs;
    assert ([] + (FlightSeqs(Checked(ev)) + others)) + buffered == (FlightSeqs(Checked(ev)) + others) + buffered;
  }

  lemma DrainFresh(conn: Conn, role: Role, latest: nat, hidden: set<nat>, abandoned: set<nat>)
    requires ConnOk(conn, role, latest, hidden, abandoned) && ConnEnabled(conn, Drain, latest)
    requires !IsStale(conn.replay.todo[0], conn.sub.lastSeq)
    ensures ConnOk(ConnNext(conn, Drain, latest, hidden), role, latest, hidden, abandoned)
  {
    hide Gapless, Advance, Owed, Own, Seqs, Tidy, Publishable, QueueOk;
    FreshOwn(conn, latest, hidden);
  }

  lemma DrainKeeps(conn: Conn, role: Role, latest: nat, hidden: set<nat>, abandoned: set<nat>)
    requires ConnOk(conn, role, latest, hidden, abandoned) && ConnEnabled(conn, Drain, latest)
    ensures ConnOk(ConnNext(conn, Drain, latest, hidden), role, latest, hidden, abandoned)
  {
    if IsStale(conn.replay.todo[0], conn.sub.lastSeq) {
      DrainStale(conn, role, latest, hidden, abandoned);
    } else {
      DrainFresh(conn, role, latest, hidden, abandoned);
    }
  }

  lemma SendEphemeralKeeps(
    conn: Conn, role: Role, kind: string, body: int, latest: nat, hidden: set<nat>, abandoned: set<nat>)
    requires ConnOk(conn, role, latest, hidden, abandoned)
    ensures ConnOk(ConnNext(conn, SendEphemeral(kind, body), latest, hidden), role, latest, hidden, abandoned)
  {
    var ev := Ephemeral(kind, body);
    if Judge(conn.sub, ev) == Deliver {
      SeqsSnoc(conn.wire, ev);
      assert Seqs(conn.wire) + [] == Seqs(conn.wire);
    } else {
      BufferKeeps(conn, role, ev, latest, hidden, abandoned);
    }
  }

  lemma BufferKeeps(conn: Conn, role: Role, ev: Event, latest: nat, hidden: set<nat>, abandoned: set<nat>)
    requires ConnOk(conn, role, latest, hidden, abandoned) && ev.Ephemeral?
    ensures ConnOk(conn.(sub := Offer(conn.sub, ev)), role, latest, hidden, abandoned)
  {
    var conn' := conn.(sub := Offer(conn.sub, ev));
    OfferSeqs(conn.sub, ev);
    OfferKeepsWellFormed(conn.sub, ev);
    assert Seqs(conn.sub.buffered) + [] == Seqs(conn.sub.buffered);
    assert Own(conn') == Own(conn);
    assert SubOk(conn', role);
  }

  lemma HaltKeeps(conn: Conn, role: Role, latest: nat, hidden: set<nat>, abandoned: set<nat>)
    requires ConnOk(conn, role, latest, hidden, abandoned) && !conn.replay.Finished?
    ensures ConnOk(conn.(flight := Idle, replay := Halted), role, latest, hidden, abandoned)
  {
    var conn' := conn.(flight := Idle, replay := Halted);
    assert Own(conn') == Seqs(conn.sub.buffered) && forall s :: s in Own(conn') ==> s in Own(conn);
    hide Own, Owed, Seqs, Gapless, Advance, Tidy;
    assert forall s :: s in Own(conn') + Owed(role) ==> s in Own(conn) + Owed(role);
  }

  lemma ConnStepKeeps(conn: Conn, role: Role, step: ConnStep, latest: nat, hidden: set<nat>, abandoned: set<nat>)
    requires ConnOk(conn, role, latest, hidden, abandoned) && ConnEnabled(conn, step, latest)
    ensures ConnOk(ConnNext(conn, step, latest, hidden), role, latest, hidden, abandoned)
  {
    match step
    case StartReplay => StartReplayKeeps(conn, role, latest, hidden, abandoned);
    case Yield =>
      if conn.replay.next + 1 in hidden {
        YieldHidden(conn, role, latest, hidden, abandoned);
      } else {
        YieldVisible(conn, role, latest, hidden, abandoned);
      }
    case WriteFlight =>
      if conn.replay.Replaying? {
        WriteFlightReplaying(conn, role, latest, hidden, abandoned);
      } else if conn.flight.ev.Durable? {
        WriteFlightDurable(conn, role, latest, hidden, abandoned);
      } else {
        WriteFlightEphemeral(conn, role, latest, hidden, abandoned);
      }
    case MarkFlight => MarkFlightKeeps(conn, role, latest, hidden, abandoned);
    case FailFlight => HaltKeeps(conn, role, latest, hidden, abandoned);
    case EndReplay => EndReplayKeeps(conn, role, latest, hidden, abandoned);
    case AbortReplay => HaltKeeps(conn, role, latest, hidden, abandoned);
    case Take => TakeKeeps(conn, role, latest, hidden, abandoned);
    case Drain => DrainKeeps(conn, role, latest, hidden, abandoned);
    case Disconnect =>
    case SendEphemeral(kind, body) => SendEphemeralKeeps(conn, role, kind, body, latest, hidden, abandoned);
  }

  // ---- Steps of the publisher, as seen by one connection ----

  /** Cutting a queue back to a prefix, for a connection that will get nothing more. */
  lemma CutQueue(
    a: seq<nat>, b: seq<nat>, base: nat, eligible: bool, latest: nat, hidden: set<nat>, abandoned: set<nat>)
    requires Publishable(a + b, latest, hidden)
    ensures Publishable(a, latest, hidden)
    ensures QueueOk(a + b, base, eligible, latest, abandoned) ==> QueueOk(a, base, false, latest, abandoned)
  {
    ConcatLaws(a, b, base, abandoned);
    assert forall s :: s in a ==> s in a + b;
  }

  /** The connection is unregistered; an event already queued for it may still arrive. */
  lemma UnregisterKeeps(conn: Conn, role: Role, latest: nat, hidden: set<nat>, abandoned: set<nat>)
    requires ConnOk(conn, role, latest, hidden, abandoned)
    ensures ConnOk(conn, Role(false, role.head, []), latest, hidden, abandoned)
  {
    var role' := Role(false, role.head, []);
    assert Own(conn) + Owed(role) == (Own(conn) + Owed(role')) + role.tail;
    CutQueue(Own(conn) + Owed(role'), role.tail, Base(conn), role.eligible, latest, hidden, abandoned);
  }

  /** A send to the connection failed: it is out for good. */
  lemma BreakKeeps(conn: Conn, role: Role, latest: nat, hidden: set<nat>, abandoned: set<nat>)
    requires ConnOk(conn, role, latest, hidden, abandoned)
    ensures ConnOk(conn, Role(false, NoHead, []), latest, hidden, abandoned)
  {
    assert Owed(Role(false, NoHead, [])) == [];
    assert Own(conn) + [] == Own(conn);
    CutQueue(Own(conn), Owed(role), Base(conn), role.eligible, latest, hidden, abandoned);
  }

  lemma OfferKeptKeeps(conn: Conn, role: Role, latest: nat, hidden: set<nat>, abandoned: set<nat>)
    requires ConnOk(conn, role, latest, hidden, abandoned)
    requires role.head.Queued? && Judge(conn.sub, Durable(role.head.n)) == Keep
    ensures ConnOk(conn.(sub := Offer(conn.sub, Durable(role.head.n))), role.(head := NoHead),
                   latest, hidden, abandoned)
  {
    var n := role.head.n;
    var conn' := conn.(sub := Offer(conn.sub, Durable(n)));
    OfferSeqs(conn.sub, Durable(n));
    OfferKeepsWellFormed(conn.sub, Durable(n));
    assert Own(conn') == Own(conn) + [n];
    assert Own(conn') + Owed(role.(head := NoHead)) == Own(conn) + Owed(role);
  }

  lemma OfferStaleKeeps(conn: Conn, role: Role, latest: nat, hidden: set<nat>, abandoned: set<nat>)
    requires ConnOk(conn, role, latest, hidden, abandoned)
    requires role.head.Queued? && Judge(conn.sub, Durable(role.head.n)) == Stale
    ensures ConnOk(conn, role.(head := NoHead), latest, hidden, abandoned)
  {
    var n := role.head.n;
    assert Own(conn) == [];
    assert Own(conn) + Owed(role) == [n] + role.tail;
    assert Own(conn) + Owed(role.(head := NoHead)) == role.tail;
    ConsLaw(n, role.tail, conn.tip, abandoned);
    PublishableTail(n, role.tail, latest, hidden);
  }

  lemma OfferDeliverKeeps(conn: Conn, role: Role, latest: nat, hidden: set<nat>, abandoned: set<nat>)
    requires ConnOk(conn, role, latest, hidden, abandoned)
    requires role.head.Queued? && Judge(conn.sub, Durable(role.head.n)) == Deliver
    ensures ConnOk(conn, role.(head := InFlight(role.head.n)), latest, hidden, abandoned)
  {
    assert Owed(role.(head := InFlight(role.head.n))) == Owed(role);
  }

  lemma WriteLiveKeeps(conn: Conn, role: Role, latest: nat, hidden: set<nat>, abandoned: set<nat>)
    requires ConnOk(conn, role, latest, hidden, abandoned) && role.head.InFlight?
    ensures ConnOk(Write(conn, Durable(role.head.n)), role.(head := Sent(role.head.n)), latest, hidden, abandoned)
  {
    var n := role.head.n;
    assert Own(conn) == [];
    assert Own(conn) + Owed(role) == [n] + role.tail;
    var conn' := Write(conn, Durable(n));
    assert Own(conn') + Owed(role.(head := Sent(n))) == role.tail;
    ConsLaw(n, role.tail, conn.tip, abandoned);
    PublishableTail(n, role.tail, latest, hidden);
    WriteDurable(conn, n, hidden, abandoned);
  }

  lemma MarkLiveKeeps(conn: Conn, role: Role, latest: nat, hidden: set<nat>, abandoned: set<nat>)
    requires ConnOk(conn, role, latest, hidden, abandoned) && role.head.Sent?
    ensures ConnOk(conn.(sub := MarkSent(conn.sub, Durable(role.head.n))), role.(head := NoHead),
                   latest, hidden, abandoned)
  {
    var conn' := conn.(sub := MarkSent(conn.sub, Durable(role.head.n)));
    assert Own(conn') == Own(conn);
    assert Owed(role.(head := NoHead)) == Owed(role);
  }

  lemma AppendQueue(own: seq<nat>, base: nat, count: nat, latest: nat, abandoned: set<nat>)
    requires QueueOk(own, base, true, latest, abandoned)
    ensures QueueOk(own + Range(latest, count), base, true, latest + count, abandoned)
  {
    hide Gapless, Advance;
    RangeLaw(latest, count, Advance(own, base), abandoned);
    ConcatLaws(own, Range(latest, count), base, abandoned);
  }

  lemma AppendPublishable(own: seq<nat>, tail: seq<nat>, latest: nat, count: nat, hidden: set<nat>)
    requires Publishable(own, latest, hidden) && (tail == Range(latest, count) || tail == [])
    requires forall s :: s in hidden ==> s <= latest
    ensures Publishable(own + tail, latest + count, hidden)
  {
    assert forall s :: s in own + tail ==> s in own || s in tail;
  }

  lemma AppendKeeps(conn: Conn, role: Role, count: nat, latest: nat, hidden: set<nat>, abandoned: set<nat>)
    requires ConnOk(conn, role, latest, hidden, abandoned) && role.head.NoHead? && role.tail == []
    requires forall s :: s in hidden ==> s <= latest
    ensures ConnOk(conn, role.(tail := if role.eligible then Range(latest, count) else []), latest + count, hidden,
                   abandoned)
  {
    var role' := role.(tail := if role.eligible then Range(latest, count) else []);
    assert Own(conn) + Owed(role) == Own(conn);
    assert Own(conn) + Owed(role') == Own(conn) + role'.tail;
    AppendPublishable(Own(conn), role'.tail, latest, count, hidden);
    if role.eligible {
      hide QueueOk;
      if Alive(conn, role) {
        AppendQueue(Own(conn), Base(conn), count, latest, abandoned);
      }
    } else {
      assert Own(conn) + [] == Own(conn);
    }
    hide Own, Owed, Seqs, Gapless, Advance, Tidy, Publishable, Range;
  }

  lemma RepublishKeeps(conn: Conn, role: Role, n: nat, latest: nat, hidden: set<nat>, abandoned: set<nat>)
    requires ConnOk(conn, role, latest, hidden, abandoned) && role.head.NoHead? && role.tail == []
    requires n <= latest && n !in hidden
    ensures ConnOk(conn, role.(tail := if role.eligible then [n] else []), latest, hidden, abandoned)
  {
    var role' := role.(tail := if role.eligible then [n] else []);
    assert Own(conn) + Owed(role) == Own(conn);
    assert Own(conn) + Owed(role') == Own(conn) + role'.tail;
    SnocLaws(Own(conn), n, Base(conn), abandoned);
  }

  lemma AbandonKeeps(
    conn: Conn, role: Role, queue: seq<nat>, latest: nat, hidden: set<nat>, abandoned: set<nat>, broadcast: set<nat>)
    requires ConnOk(conn, role, latest, hidden, abandoned) && Reached(conn, role, broadcast) && role.head.NoHead?
    requires role.tail == if role.eligible then queue else []
    ensures ConnOk(conn, role.(tail := []), latest, hidden, abandoned + set s | s in queue && s !in broadcast)
  {
    var more := abandoned + set s | s in queue && s !in broadcast;
    var role' := role.(tail := []);
    assert Own(conn) + Owed(role) == Own(conn) + role.tail;
    assert Own(conn) + Owed(role') == Own(conn);
    hide Gapless, Advance, Seqs, Own, Owed, Base, Linked;
    CutQueue(Own(conn), role.tail, Base(conn), role.eligible, latest, hidden, abandoned);
    LinkedWithoutTail(conn, role, latest, hidden);
    if Alive(conn, role') {
      ExcuseMore(Own(conn), Base(conn), abandoned, more);
      if role.eligible {
        AbandonCovers(Own(conn), queue, Base(conn), latest, abandoned, more);
      }
    }
    assert WireOk(conn, latest, hidden, more);
  }

  lemma LinkedWithoutTail(conn: Conn, role: Role, latest: nat, hidden: set<nat>)
    ensures Linked(conn, role.(tail := []), latest, hidden) <==> Linked(conn, role, latest, hidden)
  {
  }

  /** What an abandoned queue would have covered is excused, or was broadcast and lies within reach already. */
  lemma AbandonCovers(own: seq<nat>, queue: seq<nat>, base: nat, latest: nat, abandoned: set<nat>, more: set<nat>)
    requires QueueOk(own + queue, base, true, latest, abandoned) && abandoned <= more
    requires forall t :: t in queue ==> t in more || t <= Advance(own, base)
    ensures forall s :: Advance(own, base) < s <= latest ==> s in more
  {
    ConcatLaws(own, queue, base, abandoned);
    forall s | Advance(own, base) < s <= latest
      ensures s in more
    {
      if s <= Advance(own + queue, base) {
        Accounted(queue, Advance(own, base), abandoned, s);
      }
    }
  }

  /** The snapshot turns the front of the queue into this connection's current event. */
  lemma SnapshotKeeps(conn: Conn, role: Role, queue: seq<nat>, latest: nat, hidden: set<nat>, abandoned: set<nat>)
    requires ConnOk(conn, role, latest, hidden, abandoned) && role.head.NoHead? && queue != []
    requires role.tail == if role.eligible then queue else []
    ensures ConnOk(conn, if role.eligible then Role(true, Queued(queue[0]), queue[1..]) else role, latest, hidden,
                   abandoned)
  {
    assert [queue[0]] + queue[1..] == queue;
    if role.eligible {
      assert Owed(Role(true, Queued(queue[0]), queue[1..])) == Owed(role);
    }
    hide Owed, Own, Base, QueueOk, WireOk, Publishable, WellFormed, FlightSeqs;
  }

  lemma NewConnOk(role: Role, start: nat, latest: nat, hidden: set<nat>, abandoned: set<nat>)
    requires role.head.NoHead? && Publishable(role.tail, latest, hidden)
    ensures ConnOk(NewConn(start, latest), role, latest, hidden, abandoned)
  {
    var conn := NewConn(start, latest);
    assert Own(conn) == [];
    assert Own(conn) + Owed(role) == role.tail;
    AllBelow(role.tail, Base(conn), abandoned);
    hide Own, Gapless, Advance;
  }

  // ---- Every step of the Hub ----

  lemma RegisteredRole(h: Hub, c: nat, start: nat)
    requires PublicationOk(h) && Enabled(h, Register(c, start))
    ensures var h' := h.(conns := h.conns[c := NewConn(start, h.latest)], registered := h.registered + {c});
            var role := RoleOf(h', c);
            role.head.NoHead? && Publishable(role.tail, h.latest, h.hidden)
  {
    if h.publication.Some? && h.publication.value.queue != [] {
      assert forall s :: s in h.publication.value.queue[1..] ==> s in h.publication.value.queue;
    }
  }

  lemma RegisterStep(h: Hub, c: nat, start: nat)
    requires StateOk(h) && Enabled(h, Register(c, start))
    ensures StateOk(Next(h, Register(c, start)))
  {
    hide WireOk, Linked, QueueOk, Own, Owed, Base, Judge, Offer;
    var h' := Next(h, Register(c, start));
    RegisteredRole(h, c, start);
    NewConnOk(RoleOf(h', c), start, h.latest, h.hidden, h.abandoned);
    forall d | d in h'.conns
      ensures ConnOk(h'.conns[d], RoleOf(h', d), h'.latest, h'.hidden, h'.abandoned)
    {
      if d != c {
        assert RoleOf(h', d) == RoleOf(h, d);
      }
    }
    assert PublicationOk(h');
  }

  lemma UnregisterStep(h: Hub, c: nat)
    requires StateOk(h) && Enabled(h, Unregister(c))
    ensures StateOk(Next(h, Unregister(c)))
  {
    hide WireOk, Linked, QueueOk, Own, Owed, Base, Judge, Offer, ConnOk;
    var h' := Next(h, Unregister(c));
    forall d | d in h'.conns
      ensures ConnOk(h'.conns[d], RoleOf(h', d), h'.latest, h'.hidden, h'.abandoned)
    {
      if d == c {
        UnregisterKeeps(h.conns[c], RoleOf(h, c), h.latest, h.hidden, h.abandoned);
        assert RoleOf(h', c) == Role(false, RoleOf(h, c).head, []);
      } else {
        assert RoleOf(h', d) == RoleOf(h, d);
      }
    }
  }

  lemma OnConnStep(h: Hub, c: nat, step: ConnStep)
    requires StateOk(h) && Enabled(h, OnConn(c, step))
    ensures StateOk(Next(h, OnConn(c, step)))
  {
    hide WireOk, Linked, QueueOk, Own, Owed, Base, Judge, Offer;
    var h' := Next(h, OnConn(c, step));
    ConnStepKeeps(h.conns[c], RoleOf(h, c), step, h.latest, h.hidden, h.abandoned);
    forall d | d in h'.conns
      ensures ConnOk(h'.conns[d], RoleOf(h', d), h'.latest, h'.hidden, h'.abandoned)
    {
      assert RoleOf(h', d) == RoleOf(h, d);
    }
  }

  lemma StartPublication(h: Hub, step: PublisherStep)
    requires StateOk(h) && PublisherEnabled(h, step) && (step.Append? || step.Republish?)
    ensures StateOk(PublisherNext(h, step))
  {
    hide WireOk, Linked, QueueOk, Own, Owed, Base, Judge, Offer;
    var h' := PublisherNext(h, step);
    forall d | d in h'.conns
      ensures ConnOk(h'.conns[d], RoleOf(h', d), h'.latest, h'.hidden, h'.abandoned)
    {
      if step.Append? {
        AppendKeeps(h.conns[d], RoleOf(h, d), step.count, h.latest, h.hidden, h.abandoned);
        assert RoleOf(h', d).tail == if d in h.registered then Range(h.latest, step.count) else [];
      } else {
        RepublishKeeps(h.conns[d], RoleOf(h, d), step.n, h.latest, h.hidden, h.abandoned);
      }
    }
  }

  lemma EndPublication(h: Hub, step: PublisherStep)
    requires HubOk(h) && PublisherEnabled(h, step) && (step.Abandon? || step.Finish?)
    ensures StateOk(PublisherNext(h, step))
  {
    hide WireOk, Linked, QueueOk, Own, Owed, Base, Judge, Offer, LogOk, Reached;
    var h' := PublisherNext(h, step);
    var queue := h.publication.value.queue;
    forall d | d in h'.conns
      ensures ConnOk(h'.conns[d], RoleOf(h', d), h'.latest, h'.hidden, h'.abandoned)
    {
      if step.Abandon? {
        AbandonKeeps(h.conns[d], RoleOf(h, d), queue, h.latest, h.hidden, h.abandoned, h.broadcast);
      } else {
        assert RoleOf(h', d) == RoleOf(h, d);
      }
    }
  }

  lemma MoveThroughQueue(h: Hub, step: PublisherStep)
    requires StateOk(h) && PublisherEnabled(h, step) && (step.Snapshot? || step.NextEvent?)
    ensures StateOk(PublisherNext(h, step))
  {
    hide WireOk, Linked, QueueOk, Own, Owed, Base, Judge, Offer;
    var h' := PublisherNext(h, step);
    var queue := h.publication.value.queue;
    forall d | d in h'.conns
      ensures ConnOk(h'.conns[d], RoleOf(h', d), h'.latest, h'.hidden, h'.abandoned)
    {
      if step.Snapshot? {
        SnapshotKeeps(h.conns[d], RoleOf(h, d), queue, h.latest, h.hidden, h.abandoned);
      } else {
        assert RoleOf(h', d) == RoleOf(h, d);
      }
    }
    assert forall n :: n in queue[1..] ==> n in queue;
  }

  /** The role that an offer of the current event leaves. */
  function AfterOffer(role: Role, verdict: Verdict): Role
    requires role.head.Queued?
  {
    match verdict
    case Keep => role.(head := NoHead)
    case Stale => role.(head := NoHead)
    case Overflow => Role(false, NoHead, [])
    case Deliver => role.(head := InFlight(role.head.n))
  }

  lemma OfferedRole(h: Hub, c: nat)
    requires PublisherEnabled(h, OfferTo(c))
    ensures RoleOf(h, c).head == Queued(h.publication.value.queue[0])
    ensures RoleOf(OfferStep(h, c), c) ==
            AfterOffer(RoleOf(h, c), Judge(h.conns[c].sub, Durable(h.publication.value.queue[0])))
  {
    hide Judge, Offer;
  }

  lemma OffersAside(conn: Conn, offers: seq<nat>, role: Role, latest: nat, hidden: set<nat>, abandoned: set<nat>)
    requires ConnOk(conn, role, latest, hidden, abandoned)
    ensures ConnOk(conn.(offers := offers), role, latest, hidden, abandoned)
  {
    hide Seqs, Gapless, Advance, Tidy, Owed;
    assert Own(conn.(offers := offers)) == Own(conn);
  }

  lemma OfferKeeps(conn: Conn, offers: seq<nat>, role: Role, latest: nat, hidden: set<nat>, abandoned: set<nat>)
    requires ConnOk(conn, role, latest, hidden, abandoned) && role.head.Queued?
    ensures var ev := Durable(role.head.n);
            ConnOk(conn.(sub := Offer(conn.sub, ev), offers := offers), AfterOffer(role, Judge(conn.sub, ev)),
                   latest, hidden, abandoned)
  {
    hide ConnOk, Offer, Judge;
    var ev := Durable(role.head.n);
    var conn', role' := conn.(sub := Offer(conn.sub, ev)), AfterOffer(role, Judge(conn.sub, ev));
    OfferChangesNothing(conn.sub, ev);
    match Judge(conn.sub, ev) {
      case Keep => OfferKeptKeeps(conn, role, latest, hidden, abandoned);
      case Stale => OfferStaleKeeps(conn, role, latest, hidden, abandoned);
      case Overflow => BreakKeeps(conn, role, latest, hidden, abandoned);
      case Deliver => OfferDeliverKeeps(conn, role, latest, hidden, abandoned);
    }
    OffersAside(conn', offers, role', latest, hidden, abandoned);
  }

  lemma OfferedConn(h: Hub, c: nat)
    requires StateOk(h) && PublisherEnabled(h, OfferTo(c))
    ensures ConnOk(OfferStep(h, c).conns[c], RoleOf(OfferStep(h, c), c), h.latest, h.hidden, h.abandoned)
  {
    OfferedRole(h, c);
    var conn, offers := h.conns[c], OfferStep(h, c).conns[c].offers;
    assert ConnOk(conn, RoleOf(h, c), h.latest, h.hidden, h.abandoned);
    hide ConnOk, Offer, Judge, RoleOf, StateOk;
    OfferKeeps(conn, offers, RoleOf(h, c), h.latest, h.hidden, h.abandoned);
  }

  lemma OfferChangesNothing(s: Subscription, ev: Event)
    ensures Judge(s, ev) != Keep ==> Offer(s, ev) == s
  {
  }

  lemma OfferToStep(h: Hub, c: nat)
    requires StateOk(h) && PublisherEnabled(h, OfferTo(c))
    ensures StateOk(PublisherNext(h, OfferTo(c)))
  {
    var h' := OfferStep(h, c);
    OfferedConn(h, c);
    assert h'.conns.Keys == h.conns.Keys;
    assert PublicationOk(h');
    OtherRoles(h, h', c);
  }

  /** A step that serves connection `c` leaves every other connection and its role alone. */
  lemma OtherRoles(h: Hub, h': Hub, c: nat)
    requires StateOk(h) && c in h.conns && h.publication.Some? && h'.publication.Some?
    requires h'.conns.Keys == h.conns.Keys && (forall d :: d in h.conns && d != c ==> h'.conns[d] == h.conns[d])
    requires h'.latest == h.latest && h'.hidden == h.hidden && h'.abandoned == h.abandoned
    requires h'.registered == h.registered || h'.registered == h.registered - {c}
    requires var p, p' := h.publication.value, h'.publication.value;
             && p'.queue == p.queue && p'.snapped == p.snapped
             && (p'.targets == p.targets || p'.targets == p.targets - {c})
             && (p.sending.NoSend? || p.sending.target == c) && (p'.sending.NoSend? || p'.sending.target == c)
    requires ConnOk(h'.conns[c], RoleOf(h', c), h.latest, h.hidden, h.abandoned)
    requires PublicationOk(h')
    ensures StateOk(h')
  {
    hide ConnOk;
    forall d | d in h'.conns
      ensures ConnOk(h'.conns[d], RoleOf(h', d), h'.latest, h'.hidden, h'.abandoned)
    {
      if d != c {
        assert RoleOf(h', d) == RoleOf(h, d);
      }
    }
  }

  lemma LiveSendConn(h: Hub, step: PublisherStep)
    requires StateOk(h) && PublisherEnabled(h, step)
    requires step.WriteLive? || step.MarkLive? || step.FailLive? || step.DropBroken?
    ensures var h', c := PublisherNext(h, step), h.publication.value.sending.target;
            c in h'.conns && ConnOk(h'.conns[c], RoleOf(h', c), h.latest, h.hidden, h.abandoned)
  {
    var h' := PublisherNext(h, step);
    var c := h.publication.value.sending.target;
    var conn, role := h.conns[c], RoleOf(h, c);
    match step
    case WriteLive =>
      assert RoleOf(h', c) == role.(head := Sent(role.head.n));
      WriteLiveKeeps(conn, role, h.latest, h.hidden, h.abandoned);
    case MarkLive =>
      assert RoleOf(h', c) == role.(head := NoHead);
      MarkLiveKeeps(conn, role, h.latest, h.hidden, h.abandoned);
    case FailLive =>
      assert RoleOf(h', c) == Role(false, NoHead, []);
      BreakKeeps(conn, role, h.latest, h.hidden, h.abandoned);
    case DropBroken =>
      assert RoleOf(h', c) == Role(false, NoHead, []);
      BreakKeeps(conn, role, h.latest, h.hidden, h.abandoned);
  }

  /** A live send touches its target's connection, its place and the send itself. */
  lemma LiveSendFrame(h: Hub, step: PublisherStep)
    requires PublicationOk(h) && PublisherEnabled(h, step)
    requires step.WriteLive? || step.MarkLive? || step.FailLive? || step.DropBroken?
    ensures var h', c := PublisherNext(h, step), h.publication.value.sending.target;
            && c in h.conns && h'.conns.Keys == h.conns.Keys && h'.publication.Some? && PublicationOk(h')
            && (forall d :: d in h.conns && d != c ==> h'.conns[d] == h.conns[d])
            && h' == h.(conns := h'.conns, registered := h'.registered, publication := h'.publication)
            && (h'.registered == h.registered || h'.registered == h.registered - {c})
            && var p, p' := h.publication.value, h'.publication.value;
               p' == p.(sending := p'.sending) && (p'.sending.NoSend? || p'.sending.target == c)
  {
    hide Write, MarkSent;
    assert PublisherNext(h, step).conns.Keys == h.conns.Keys;
  }

  lemma LiveSendStep(h: Hub, step: PublisherStep)
    requires StateOk(h) && PublisherEnabled(h, step)
    requires step.WriteLive? || step.MarkLive? || step.FailLive? || step.DropBroken?
    ensures StateOk(PublisherNext(h, step))
  {
    LiveSendConn(h, step);
    LiveSendFrame(h, step);
    hide StateOk, ConnOk, RoleOf, PublisherNext;
    OtherRoles(h, PublisherNext(h, step), h.publication.value.sending.target);
  }

  lemma StepKeepsState(h: Hub, step: Step)
    requires HubOk(h) && Enabled(h, step)
    ensures StateOk(Next(h, step))
  {
    match step
    case Register(c, start) => RegisterStep(h, c, start);
    case Unregister(c) => UnregisterStep(h, c);
    case OnConn(c, conn) => OnConnStep(h, c, conn);
    case Publish(p) =>
      if p.Append? || p.Republish? {
        StartPublication(h, p);
      } else if p.Abandon? || p.Finish? {
        EndPublication(h, p);
      } else if p.Snapshot? || p.NextEvent? {
        MoveThroughQueue(h, p);
      } else if p.OfferTo? {
        OfferToStep(h, p.c);
      } else {
        LiveSendStep(h, p);
      }
  }
}
