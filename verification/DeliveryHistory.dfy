/** Every step of the delivery machine keeps the invariant of its history: what replay yielded and what was offered. */
module DeliveryHistory {
  import opened Subscriptions
  import opened Delivery
  import opened DeliveryProofs

  /** The history invariant of one connection. */
  ghost predicate PastOk(conn: Conn, role: Role, hidden: set<nat>, broadcast: set<nat>) {
    LogOk(conn, role, hidden) && Reached(conn, role, broadcast)
  }

  // ---- Facts about offers ----

  lemma InTimeSnoc(offers: seq<nat>, n: nat, s: nat)
    ensures InTime(offers + [n], s) <==>
            InTime(offers, s) || (s == n && forall j :: 0 <= j < |offers| ==> offers[j] < s)
  {
    var longer := offers + [n];
    if InTime(offers, s) {
      var k :| 0 <= k < |offers| && offers[k] == s && forall j :: 0 <= j < k ==> offers[j] < s;
      assert longer[k] == s && forall j :: 0 <= j < k ==> longer[j] < s;
    }
    if s == n && forall j :: 0 <= j < |offers| ==> offers[j] < s {
      assert longer[|offers|] == s && forall j :: 0 <= j < |offers| ==> longer[j] < s;
    }
    if InTime(longer, s) {
      var k :| 0 <= k < |longer| && longer[k] == s && forall j :: 0 <= j < k ==> longer[j] < s;
      assert forall j :: 0 <= j < k ==> offers[j] == longer[j];
      if k < |offers| {
        assert offers[k] == s;
      }
    }
  }

  /** A late offer of something at or below `tip` changes nothing: replay yielded it, or `tip` was offered first. */
  lemma OfferKeepsWire(conn: Conn, n: nat, hidden: set<nat>)
    requires WireIs(conn, hidden) && (conn.yielded < conn.tip ==> conn.tip in conn.offers)
    ensures WireIs(conn.(offers := conn.offers + [n]), hidden)
  {
    hide Seqs, InTime;
    forall s | conn.start < s <= conn.tip && s !in hidden
      ensures s in Seqs(conn.wire) <==> s <= conn.yielded || InTime(conn.offers + [n], s)
    {
      InTimeSnoc(conn.offers, n, s);
    }
  }

  /** The first waiting event is in time; whatever lies between `tip` and it is not. */
  lemma FirstWaiting(offers: seq<nat>, n: nat, rest: seq<nat>, tip: nat)
    requires Processed(offers, [n] + rest, tip) && tip < n
    ensures Processed(offers, rest, n) && n in offers
    ensures forall s :: tip < s <= n ==> (InTime(offers, s) <==> s == n)
  {
    var d := |offers| - |rest| - 1;
    var tail := offers[d..];
    assert tail == [n] + rest && tail[0] == n && offers[d] == n;
    assert offers[d + 1..] == tail[1..] == rest;
    forall s | tip < s <= n
      ensures InTime(offers, s) <==> s == n
    {
      if InTime(offers, s) {
        var k :| 0 <= k < |offers| && offers[k] == s && forall j :: 0 <= j < k ==> offers[j] < s;
        assert k <= d;
      }
    }
  }

  lemma WriteKeepsWire(conn: Conn, n: nat, rest: seq<nat>, hidden: set<nat>)
    requires WireIs(conn, hidden) && conn.yielded <= conn.tip < n && Processed(conn.offers, [n] + rest, conn.tip)
    requires forall s :: s in Seqs(conn.wire) ==> s <= conn.tip
    ensures var conn' := Write(conn, Durable(n));
            WireIs(conn', hidden) && conn'.tip == n && Processed(conn.offers, rest, n) && n in conn.offers
  {
    SeqsSnoc(conn.wire, Durable(n));
    FirstWaiting(conn.offers, n, rest, conn.tip);
    hide Seqs, InTime, Processed;
  }

  lemma SkipProcessed(offers: seq<nat>, n: nat, rest: seq<nat>, tip: nat)
    requires Processed(offers, [n] + rest, tip) && n <= tip
    ensures Processed(offers, rest, tip)
  {
    var d := |offers| - |rest| - 1;
    var tail := offers[d..];
    assert tail == [n] + rest && tail[0] == n && offers[d] == n;
    assert offers[d + 1..] == tail[1..] == rest;
  }

  lemma MoreWaiting(offers: seq<nat>, waiting: seq<nat>, n: nat, tip: nat)
    requires Processed(offers, waiting, tip)
    ensures Processed(offers + [n], waiting + [n], tip)
    ensures waiting == [] && n <= tip ==> Processed(offers + [n], waiting, tip)
  {
    var d := |offers| - |waiting|;
    assert (offers + [n])[d..] == offers[d..] + [n];
    assert forall k :: 0 <= k < d ==> (offers + [n])[k] == offers[k];
  }

  lemma {:induction false} AdvanceGrows(q: seq<nat>, mark: nat, higher: nat)
    requires mark <= higher
    ensures Advance(q, mark) <= Advance(q, higher)
  {
    if q != [] {
      AdvanceGrows(q[1..], if q[0] > mark then q[0] else mark, if q[0] > higher then q[0] else higher);
    }
  }

  lemma AdvanceOne(n: nat, mark: nat)
    ensures Advance([], mark) == mark && Advance([n], mark) == Max(mark, n)
  {
    assert [n][1..] == [];
  }

  // ---- Steps that leave the history alone ----

  /** A step that changes neither wire, offers nor what waits, and does not lower the mark. */
  lemma PastStays(conn: Conn, conn': Conn, role: Role, role': Role, hidden: set<nat>, broadcast: set<nat>)
    requires PastOk(conn, role, hidden, broadcast)
    requires conn'.start == conn.start && conn'.yielded == conn.yielded && conn'.tip == conn.tip
    requires conn'.offers == conn.offers && Seqs(conn'.wire) == Seqs(conn.wire)
    requires conn'.replay.Pending? || conn'.replay.Replaying? ==> conn.replay.Pending? || conn.replay.Replaying?
    requires Alive(conn', role') ==> Alive(conn, role) && Waiting(conn', role') == Waiting(conn, role)
    requires role'.eligible && !conn'.replay.Halted? ==>
               role.eligible && !conn.replay.Halted? && Reach(conn, role) <= Reach(conn', role')
    ensures PastOk(conn', role', hidden, broadcast)
  {
    hide Seqs, InTime, Reach, Waiting, Processed, Alive;
  }

  lemma StartReplayPast(conn: Conn, role: Role, latest: nat, hidden: set<nat>, abandoned: set<nat>, broadcast: set<nat>)
    requires ConnOk(conn, role, latest, hidden, abandoned) && PastOk(conn, role, hidden, broadcast)
    requires ConnEnabled(conn, StartReplay, latest)
    ensures PastOk(ConnNext(conn, StartReplay, latest, hidden), role, hidden, broadcast)
  {
    var conn' := ConnNext(conn, StartReplay, latest, hidden);
    hide Seqs, Advance, Gapless, WireIs;
    assert Own(conn') == Own(conn);
    AdvanceGrows(Own(conn) + Owed(role.(tail := [])), Base(conn), Base(conn'));
    PastStays(conn, conn', role, role, hidden, broadcast);
  }

  lemma QuietStepPast(
    conn: Conn, step: ConnStep, role: Role, latest: nat, hidden: set<nat>, abandoned: set<nat>, broadcast: set<nat>)
    requires ConnOk(conn, role, latest, hidden, abandoned) && PastOk(conn, role, hidden, broadcast)
    requires ConnEnabled(conn, step, latest)
    requires step.MarkFlight? || step.FailFlight? || step.EndReplay? || step.AbortReplay? || step.Disconnect?
    ensures PastOk(ConnNext(conn, step, latest, hidden), role, hidden, broadcast)
  {
    var conn' := ConnNext(conn, step, latest, hidden);
    hide Seqs, Advance, Gapless, WireIs, Owed;
    assert !conn'.replay.Halted? ==> Own(conn') == Own(conn) && Base(conn') == Base(conn);
    PastStays(conn, conn', role, role, hidden, broadcast);
  }

  lemma TakePast(conn: Conn, role: Role, latest: nat, hidden: set<nat>, abandoned: set<nat>, broadcast: set<nat>)
    requires ConnOk(conn, role, latest, hidden, abandoned) && PastOk(conn, role, hidden, broadcast)
    requires ConnEnabled(conn, Take, latest)
    ensures PastOk(ConnNext(conn, Take, latest, hidden), role, hidden, broadcast)
  {
    var conn' := ConnNext(conn, Take, latest, hidden);
    assert Own(conn') == Own(conn);
    hide Seqs, Advance, Gapless, WireIs, Owed, Own;
    PastStays(conn, conn', role, role, hidden, broadcast);
  }

  lemma SendEphemeralPast(
    conn: Conn, kind: string, body: int, role: Role, latest: nat, hidden: set<nat>, abandoned: set<nat>,
    broadcast: set<nat>)
    requires ConnOk(conn, role, latest, hidden, abandoned) && PastOk(conn, role, hidden, broadcast)
    ensures PastOk(ConnNext(conn, SendEphemeral(kind, body), latest, hidden), role, hidden, broadcast)
  {
    var ev := Ephemeral(kind, body);
    var conn' := ConnNext(conn, SendEphemeral(kind, body), latest, hidden);
    SeqsSnoc(conn.wire, ev);
    OfferSeqs(conn.sub, ev);
    assert Seqs(conn.wire) + [] == Seqs(conn.wire) && Seqs(conn.sub.buffered) + [] == Seqs(conn.sub.buffered);
    hide Seqs, Judge, Offer;
    assert Own(conn') == Own(conn);
    hide Advance, Gapless, WireIs, Owed, Own;
    PastStays(conn, conn', role, role, hidden, broadcast);
  }

  // ---- Replay ----

  /** While replay runs, `yielded` follows `tip` and the wire holds every unfiltered event up to it. */
  lemma ReplayMoves(conn: Conn, conn': Conn, role: Role, hidden: set<nat>, broadcast: set<nat>)
    requires PastOk(conn, role, hidden, broadcast) && conn.replay.Replaying? && conn'.replay.Replaying?
    requires conn'.start == conn.start && conn'.offers == conn.offers && conn'.sub.buffered == conn.sub.buffered
    requires conn'.yielded == conn'.tip == conn.tip + 1 && conn'.replay.floor == conn.replay.floor
    requires forall s :: s in Seqs(conn.wire) ==> s in Seqs(conn'.wire)
    requires conn'.tip in hidden || conn'.tip in Seqs(conn'.wire)
    ensures PastOk(conn', role, hidden, broadcast)
  {
    hide Seqs, InTime, Advance;
    assert Own(conn') == Own(conn) && Waiting(conn', role) == Waiting(conn, role);
    AdvanceGrows(Own(conn) + Owed(role.(tail := [])), Base(conn), Base(conn'));
  }

  lemma OwnWhileReplaying(conn: Conn)
    requires conn.replay.Replaying?
    ensures Own(conn) == Seqs(conn.sub.buffered)
  {
  }

  lemma YieldHiddenPast(conn: Conn, role: Role, latest: nat, hidden: set<nat>, broadcast: set<nat>)
    requires Linked(conn, role, latest, hidden) && PastOk(conn, role, hidden, broadcast)
    requires ConnEnabled(conn, Yield, latest) && conn.replay.next + 1 in hidden
    ensures PastOk(ConnNext(conn, Yield, latest, hidden), role, hidden, broadcast)
  {
    hide Own, Seqs, PastOk;
    ReplayMoves(conn, ConnNext(conn, Yield, latest, hidden), role, hidden, broadcast);
  }

  lemma YieldVisiblePast(conn: Conn, role: Role, latest: nat, hidden: set<nat>, broadcast: set<nat>)
    requires PastOk(conn, role, hidden, broadcast)
    requires ConnEnabled(conn, Yield, latest) && conn.replay.next + 1 !in hidden
    ensures PastOk(ConnNext(conn, Yield, latest, hidden), role, hidden, broadcast)
  {
    var conn' := ConnNext(conn, Yield, latest, hidden);
    OwnWhileReplaying(conn);
    OwnWhileReplaying(conn');
    hide Own, Seqs, Advance, Owed, PastOk;
    PastStays(conn, conn', role, role, hidden, broadcast);
  }

  lemma YieldPast(conn: Conn, role: Role, latest: nat, hidden: set<nat>, abandoned: set<nat>, broadcast: set<nat>)
    requires ConnOk(conn, role, latest, hidden, abandoned) && PastOk(conn, role, hidden, broadcast)
    requires ConnEnabled(conn, Yield, latest)
    ensures PastOk(ConnNext(conn, Yield, latest, hidden), role, hidden, broadcast)
  {
    hide Linked, SubOk, WireOk, QueueOk, Publishable, PastOk, Own, Owed, Base;
    if conn.replay.next + 1 in hidden {
      YieldHiddenPast(conn, role, latest, hidden, broadcast);
    } else {
      YieldVisiblePast(conn, role, latest, hidden, broadcast);
    }
  }

  lemma WriteReplayedPast(
    conn: Conn, role: Role, latest: nat, hidden: set<nat>, abandoned: set<nat>, broadcast: set<nat>)
    requires ConnOk(conn, role, latest, hidden, abandoned) && PastOk(conn, role, hidden, broadcast)
    requires ConnEnabled(conn, WriteFlight, latest) && conn.replay.Replaying?
    ensures PastOk(ConnNext(conn, WriteFlight, latest, hidden), role, hidden, broadcast)
  {
    var conn' := ConnNext(conn, WriteFlight, latest, hidden);
    SeqsSnoc(conn.wire, conn.flight.ev);
    hide Seqs, Advance, Gapless, WireIs, Owed;
    ReplayMoves(conn, conn', role, hidden, broadcast);
  }

  // ---- Drain ----

  lemma OwnFlight(conn: Conn, conn': Conn)
    requires conn.replay.Draining? && conn.flight.Checked? && conn.flight.ev.Durable? && conn'.flight.Written?
    requires conn'.replay == conn.replay && conn'.sub == conn.sub
    ensures Own(conn) == [conn.flight.ev.seqNo] + Own(conn')
  {
    hide Seqs;
  }

  lemma WriteDrainedPast(
    conn: Conn, role: Role, latest: nat, hidden: set<nat>, abandoned: set<nat>, broadcast: set<nat>)
    requires ConnOk(conn, role, latest, hidden, abandoned) && PastOk(conn, role, hidden, broadcast)
    requires ConnEnabled(conn, WriteFlight, latest) && conn.replay.Draining? && conn.flight.ev.Durable?
    ensures PastOk(ConnNext(conn, WriteFlight, latest, hidden), role, hidden, broadcast)
  {
    var conn' := ConnNext(conn, WriteFlight, latest, hidden);
    var n, rest := conn.flight.ev.seqNo, Own(conn');
    OwnFlight(conn, conn');
    hide Own, Seqs, Advance, Gapless, Owed;
    assert Waiting(conn, role) == [n] + rest && Waiting(conn', role) == rest;
    WriteKeepsWire(conn, n, rest, hidden);
    ReachMoves(conn, conn', role, n, rest);
    hide Waiting, Processed, Reach, WireIs;
  }

  /** Writing the first own event moves the mark to it and leaves the reach alone. */
  lemma ReachMoves(conn: Conn, conn': Conn, role: Role, n: nat, rest: seq<nat>)
    requires conn.replay.Draining? && conn'.replay.Draining? && Own(conn) == [n] + rest && Own(conn') == rest
    requires conn'.tip == Max(conn.tip, n)
    ensures Reach(conn', role) == Reach(conn, role)
  {
    var more := Owed(role.(tail := []));
    assert ([n] + rest) + more == [n] + (rest + more);
    ConsLaw(n, rest + more, conn.tip, {});
  }

  lemma WriteEphemeralPast(
    conn: Conn, role: Role, latest: nat, hidden: set<nat>, abandoned: set<nat>, broadcast: set<nat>)
    requires ConnOk(conn, role, latest, hidden, abandoned) && PastOk(conn, role, hidden, broadcast)
    requires ConnEnabled(conn, WriteFlight, latest) && conn.replay.Draining? && conn.flight.ev.Ephemeral?
    ensures PastOk(ConnNext(conn, WriteFlight, latest, hidden), role, hidden, broadcast)
  {
    var conn' := ConnNext(conn, WriteFlight, latest, hidden);
    SeqsSnoc(conn.wire, conn.flight.ev);
    assert Seqs(conn.wire) + [] == Seqs(conn.wire);
    assert Own(conn') == Own(conn);
    hide Seqs, Advance, Gapless, WireIs, Owed, Own;
    PastStays(conn, conn', role, role, hidden, broadcast);
  }

  lemma OwnSame(conn: Conn, conn': Conn)
    requires conn'.replay == conn.replay && conn'.flight == conn.flight && conn'.sub == conn.sub
    ensures Own(conn') == Own(conn)
  {
  }

  lemma DrainPast(conn: Conn, role: Role, latest: nat, hidden: set<nat>, abandoned: set<nat>, broadcast: set<nat>)
    requires ConnOk(conn, role, latest, hidden, abandoned) && PastOk(conn, role, hidden, broadcast)
    requires ConnEnabled(conn, Drain, latest)
    ensures PastOk(ConnNext(conn, Drain, latest, hidden), role, hidden, broadcast)
  {
    var conn' := ConnNext(conn, Drain, latest, hidden);
    hide Seqs, Advance, Gapless, Owed, Own;
    if IsStale(conn.replay.todo[0], conn.sub.lastSeq) {
      var n, rest := conn.replay.todo[0].seqNo, Own(conn');
      DrainedHead(conn);
      OwnSame(conn', conn.(replay := conn'.replay));
      assert Waiting(conn, role) == [n] + rest && Waiting(conn', role) == rest;
      SkipProcessed(conn.offers, n, rest, conn.tip);
      ReachMoves(conn, conn', role, n, rest);
      hide Waiting, Processed, Reach;
    } else {
      FreshOwn(conn, latest, hidden);
      hide WireIs;
      PastStays(conn, conn', role, role, hidden, broadcast);
    }
  }

  lemma ConnStepPast(
    conn: Conn, step: ConnStep, role: Role, latest: nat, hidden: set<nat>, abandoned: set<nat>, broadcast: set<nat>)
    requires ConnOk(conn, role, latest, hidden, abandoned) && PastOk(conn, role, hidden, broadcast)
    requires ConnEnabled(conn, step, latest)
    ensures PastOk(ConnNext(conn, step, latest, hidden), role, hidden, broadcast)
  {
    hide PastOk, WireOk, QueueOk, Own, Owed, Base;
    match step
    case StartReplay => StartReplayPast(conn, role, latest, hidden, abandoned, broadcast);
    case Yield => YieldPast(conn, role, latest, hidden, abandoned, broadcast);
    case WriteFlight =>
      if conn.replay.Replaying? {
        WriteReplayedPast(conn, role, latest, hidden, abandoned, broadcast);
      } else if conn.flight.ev.Durable? {
        WriteDrainedPast(conn, role, latest, hidden, abandoned, broadcast);
      } else {
        WriteEphemeralPast(conn, role, latest, hidden, abandoned, broadcast);
      }
    case MarkFlight => QuietStepPast(conn, step, role, latest, hidden, abandoned, broadcast);
    case FailFlight => QuietStepPast(conn, step, role, latest, hidden, abandoned, broadcast);
    case EndReplay => QuietStepPast(conn, step, role, latest, hidden, abandoned, broadcast);
    case AbortReplay => QuietStepPast(conn, step, role, latest, hidden, abandoned, broadcast);
    case Take => TakePast(conn, role, latest, hidden, abandoned, broadcast);
    case Drain => DrainPast(conn, role, latest, hidden, abandoned, broadcast);
    case Disconnect => QuietStepPast(conn, step, role, latest, hidden, abandoned, broadcast);
    case SendEphemeral(kind, body) => SendEphemeralPast(conn, kind, body, role, latest, hidden, abandoned, broadcast);
  }

  // ---- The publisher, as seen by one connection ----

  /** The connection loses its place: unregistered, broken or about to be dropped. */
  lemma CutPast(conn: Conn, role: Role, role': Role, hidden: set<nat>, broadcast: set<nat>)
    requires PastOk(conn, role, hidden, broadcast) && !role'.eligible
    requires role'.head == role.head || (role'.head.NoHead? && (role.head.InFlight? ==> conn.replay.Finished?))
    ensures PastOk(conn, role', hidden, broadcast)
  {
    hide Advance, Seqs, Own, WireIs, Processed;
  }

  /** Only the events behind the current one change. */
  lemma TailPast(conn: Conn, role: Role, tail: seq<nat>, hidden: set<nat>, broadcast: set<nat>)
    requires PastOk(conn, role, hidden, broadcast)
    ensures PastOk(conn, role.(tail := tail), hidden, broadcast)
  {
    hide Advance, Seqs, Own, WireIs, Processed;
    assert role.(tail := tail).(tail := []) == role.(tail := []);
  }

  lemma SnapshotPast(conn: Conn, role: Role, n: nat, tail: seq<nat>, hidden: set<nat>, broadcast: set<nat>)
    requires PastOk(conn, role, hidden, broadcast) && role.head.NoHead?
    ensures PastOk(conn, if role.eligible then Role(true, Queued(n), tail) else role, hidden, broadcast + {n})
  {
    hide Seqs, Own, WireIs, Processed;
    assert Own(conn) + Owed(role.(tail := [])) == Own(conn);
    assert Own(conn) + Owed(Role(true, Queued(n), [])) == Own(conn) + [n];
    SnocLaws(Own(conn), n, Base(conn), {});
  }

  lemma WireSame(conn: Conn, conn': Conn, hidden: set<nat>)
    requires WireIs(conn, hidden) && conn' == conn.(sub := conn'.sub)
    ensures WireIs(conn', hidden)
  {
  }

  lemma OfferLogged(conn: Conn, conn': Conn, role: Role, role': Role, n: nat, hidden: set<nat>)
    requires LogOk(conn, role, hidden) && WireIs(conn', hidden)
    requires conn' == conn.(sub := conn'.sub, offers := conn.offers + [n])
    requires Alive(conn', role') ==> Alive(conn, role)
    requires Waiting(conn', role') == Waiting(conn, role) + [n] ||
             (Waiting(conn', role') == Waiting(conn, role) == [] && n <= conn.tip)
    ensures LogOk(conn', role', hidden)
  {
    hide Waiting, WireIs, Alive, Seqs;
    if Alive(conn', role') {
      MoreWaiting(conn.offers, Waiting(conn, role), n, conn.tip);
    }
  }

  lemma OfferPast(conn: Conn, role: Role, latest: nat, hidden: set<nat>, abandoned: set<nat>, broadcast: set<nat>)
    requires ConnOk(conn, role, latest, hidden, abandoned) && PastOk(conn, role, hidden, broadcast) && role.head.Queued?
    requires Judge(conn.sub, Durable(role.head.n)) != Overflow
    ensures var ev := Durable(role.head.n);
            PastOk(conn.(sub := Offer(conn.sub, ev), offers := conn.offers + [role.head.n]),
                   AfterOffer(role, Judge(conn.sub, ev)), hidden, broadcast)
  {
    var n, ev, verdict := role.head.n, Durable(role.head.n), Judge(conn.sub, Durable(role.head.n));
    var conn' := conn.(sub := Offer(conn.sub, ev), offers := conn.offers + [n]);
    var role' := AfterOffer(role, verdict);
    OfferKeepsWire(conn, n, hidden);
    OfferedOwn(conn, n);
    OwnSame(conn', conn.(sub := conn'.sub));
    WireSame(conn.(offers := conn'.offers), conn', hidden);
    hide Own, Advance, Gapless, Seqs, WireIs, Tidy, Judge, Offer, WellFormed, QueueOk, Publishable;
    OfferWaits(conn, conn', role, verdict);
    hide Waiting, Reach;
    OfferLogged(conn, conn', role, role', n, hidden);
    hide LogOk;
  }

  /** A kept event goes to the back of what the connection owes itself; otherwise replay is over and it owes nothing. */
  lemma OfferedOwn(conn: Conn, n: nat)
    requires WellFormed(conn.sub) && (conn.sub.replaying <==> !conn.replay.Finished?)
    ensures var conn' := conn.(sub := Offer(conn.sub, Durable(n)));
            match Judge(conn.sub, Durable(n))
            case Keep => Own(conn') == Own(conn) + [n]
            case Overflow => true
            case Stale => Own(conn') == [] == Own(conn) && conn.replay.Finished? && n <= conn.sub.lastSeq
            case Deliver => Own(conn') == [] == Own(conn) && conn.replay.Finished?
  {
    OfferSeqs(conn.sub, Durable(n));
    hide WellFormed;
  }

  /** An offered event joins what waits, or it is stale; the reach stays. */
  lemma OfferWaits(conn: Conn, conn': Conn, role: Role, verdict: Verdict)
    requires role.head.Queued? && verdict != Overflow
    requires conn'.replay == conn.replay && conn'.tip == conn.tip && conn'.joined == conn.joined
    requires if verdict == Keep then Own(conn') == Own(conn) + [role.head.n] else Own(conn') == [] == Own(conn)
    requires verdict == Stale ==> Base(conn) == conn.tip && role.head.n <= conn.tip
    ensures var role' := AfterOffer(role, verdict);
            && Reach(conn', role') == Reach(conn, role)
            && Waiting(conn', role') == Waiting(conn, role) + (if verdict == Stale then [] else [role.head.n])
            && (verdict == Stale ==> Waiting(conn, role) == [])
  {
    var n, role' := role.head.n, AfterOffer(role, verdict);
    AdvanceOne(n, conn.tip);
    hide Own, Advance;
    match verdict
    case Keep => assert Own(conn') + Owed(role'.(tail := [])) == Own(conn) + Owed(role.(tail := []));
    case Stale =>
      assert Own(conn) + Owed(role.(tail := [])) == [n] && Own(conn') + Owed(role'.(tail := [])) == [];
    case Deliver => assert Owed(role'.(tail := [])) == Owed(role.(tail := []));
  }

  lemma WriteLivePast(conn: Conn, role: Role, latest: nat, hidden: set<nat>, abandoned: set<nat>, broadcast: set<nat>)
    requires ConnOk(conn, role, latest, hidden, abandoned) && PastOk(conn, role, hidden, broadcast)
    requires role.head.InFlight?
    ensures PastOk(Write(conn, Durable(role.head.n)), role.(head := Sent(role.head.n)), hidden, broadcast)
  {
    var n := role.head.n;
    var conn', role' := Write(conn, Durable(n)), role.(head := Sent(n));
    assert Own(conn) == [] && Own(conn') == [];
    hide Own, Gapless, Seqs;
    assert Waiting(conn, role) == [n] + [] && Waiting(conn', role') == [];
    assert Own(conn) + Owed(role.(tail := [])) == [n] && Own(conn') + Owed(role'.(tail := [])) == [];
    AdvanceOne(n, conn.tip);
    AdvanceOne(n, n);
    WriteKeepsWire(conn, n, [], hidden);
    hide Advance, Processed, WireIs;
  }

  lemma MarkLivePast(conn: Conn, role: Role, latest: nat, hidden: set<nat>, abandoned: set<nat>, broadcast: set<nat>)
    requires ConnOk(conn, role, latest, hidden, abandoned) && PastOk(conn, role, hidden, broadcast) && role.head.Sent?
    ensures var n := role.head.n;
            PastOk(conn.(sub := MarkSent(conn.sub, Durable(n))), role.(head := NoHead), hidden, broadcast)
  {
    var conn', role' := conn.(sub := MarkSent(conn.sub, Durable(role.head.n))), role.(head := NoHead);
    assert Own(conn') == Own(conn);
    assert Owed(role'.(tail := [])) == Owed(role.(tail := []));
    hide Gapless, Seqs, WireIs, Own, Advance;
    PastStays(conn, conn', role, role', hidden, broadcast);
  }

  lemma NewConnPast(role: Role, start: nat, latest: nat, hidden: set<nat>, broadcast: set<nat>)
    requires role.head.NoHead? && forall s :: s in broadcast ==> s <= latest
    ensures PastOk(NewConn(start, latest), role, hidden, broadcast)
  {
    var conn := NewConn(start, latest);
    assert Own(conn) == [] && Waiting(conn, role) == [];
    assert Own(conn) + Owed(role.(tail := [])) == [];
    AdvanceOne(0, Base(conn));
    hide Own, Seqs, Advance;
    assert WireIs(conn, hidden) && Processed(conn.offers, [], conn.tip);
  }

  // ---- Every step of the Hub ----

  lemma RegisterPast(h: Hub, c: nat, start: nat)
    requires HubOk(h) && Enabled(h, Register(c, start))
    ensures HistoryOk(Next(h, Register(c, start)))
  {
    hide LogOk, Reached, ConnOk;
    var h' := Next(h, Register(c, start));
    RegisteredRole(h, c, start);
    NewConnPast(RoleOf(h', c), start, h.latest, h.hidden, h.broadcast);
    forall d | d in h'.conns
      ensures PastOk(h'.conns[d], RoleOf(h', d), h'.hidden, h'.broadcast)
    {
      if d != c {
        assert RoleOf(h', d) == RoleOf(h, d);
      }
    }
  }

  lemma UnregisterPast(h: Hub, c: nat)
    requires HubOk(h) && Enabled(h, Unregister(c))
    ensures HistoryOk(Next(h, Unregister(c)))
  {
    hide LogOk, Reached, ConnOk;
    var h' := Next(h, Unregister(c));
    forall d | d in h'.conns
      ensures PastOk(h'.conns[d], RoleOf(h', d), h'.hidden, h'.broadcast)
    {
      if d == c {
        CutPast(h.conns[c], RoleOf(h, c), RoleOf(h', c), h.hidden, h.broadcast);
      } else {
        assert RoleOf(h', d) == RoleOf(h, d);
      }
    }
  }

  lemma OnConnPast(h: Hub, c: nat, step: ConnStep)
    requires HubOk(h) && Enabled(h, OnConn(c, step))
    ensures HistoryOk(Next(h, OnConn(c, step)))
  {
    hide LogOk, Reached, ConnOk, ConnNext, ConnEnabled;
    var h' := Next(h, OnConn(c, step));
    ConnStepPast(h.conns[c], step, RoleOf(h, c), h.latest, h.hidden, h.abandoned, h.broadcast);
    forall d | d in h'.conns
      ensures PastOk(h'.conns[d], RoleOf(h', d), h'.hidden, h'.broadcast)
    {
      assert RoleOf(h', d) == RoleOf(h, d);
    }
  }

  /** Starting, ending or moving on within a publication changes at most what lies behind the current event. */
  lemma PublicationPast(h: Hub, step: PublisherStep)
    requires HubOk(h) && PublisherEnabled(h, step)
    requires step.Append? || step.Republish? || step.Abandon? || step.Finish? || step.NextEvent?
    ensures HistoryOk(PublisherNext(h, step))
  {
    hide LogOk, Reached, ConnOk;
    var h' := PublisherNext(h, step);
    forall d | d in h'.conns
      ensures PastOk(h'.conns[d], RoleOf(h', d), h'.hidden, h'.broadcast)
    {
      TailPast(h.conns[d], RoleOf(h, d), RoleOf(h', d).tail, h.hidden, h.broadcast);
      assert RoleOf(h', d) == RoleOf(h, d).(tail := RoleOf(h', d).tail);
    }
  }

  lemma SnapshotStepPast(h: Hub)
    requires HubOk(h) && PublisherEnabled(h, Snapshot)
    ensures HistoryOk(PublisherNext(h, Snapshot))
  {
    hide LogOk, Reached, ConnOk;
    var h' := PublisherNext(h, Snapshot);
    var queue := h.publication.value.queue;
    assert queue[0] in queue;
    forall d | d in h'.conns
      ensures PastOk(h'.conns[d], RoleOf(h', d), h'.hidden, h'.broadcast)
    {
      SnapshotPast(h.conns[d], RoleOf(h, d), queue[0], queue[1..], h.hidden, h.broadcast);
    }
  }

  /** A step that serves connection `c` leaves the history of every other connection alone. */
  lemma OthersPast(h: Hub, h': Hub, c: nat)
    requires HubOk(h) && c in h.conns && h.publication.Some? && h'.publication.Some?
    requires h'.conns.Keys == h.conns.Keys && (forall d :: d in h.conns && d != c ==> h'.conns[d] == h.conns[d])
    requires h'.latest == h.latest && h'.hidden == h.hidden && h'.broadcast == h.broadcast
    requires h'.registered == h.registered || h'.registered == h.registered - {c}
    requires var p, p' := h.publication.value, h'.publication.value;
             && p'.queue == p.queue && p'.snapped == p.snapped
             && (p'.targets == p.targets || p'.targets == p.targets - {c})
             && (p.sending.NoSend? || p.sending.target == c) && (p'.sending.NoSend? || p'.sending.target == c)
    requires PastOk(h'.conns[c], RoleOf(h', c), h.hidden, h.broadcast)
    ensures HistoryOk(h')
  {
    hide LogOk, Reached, ConnOk;
    forall d | d in h'.conns
      ensures PastOk(h'.conns[d], RoleOf(h', d), h'.hidden, h'.broadcast)
    {
      if d != c {
        assert RoleOf(h', d) == RoleOf(h, d);
      }
    }
  }

  lemma OfferedPast(h: Hub, c: nat)
    requires HubOk(h) && PublisherEnabled(h, OfferTo(c))
    ensures PastOk(OfferStep(h, c).conns[c], RoleOf(OfferStep(h, c), c), h.hidden, h.broadcast)
  {
    OfferedRole(h, c);
    var conn, role := h.conns[c], RoleOf(h, c);
    assert ConnOk(conn, role, h.latest, h.hidden, h.abandoned) && PastOk(conn, role, h.hidden, h.broadcast);
    var ev := Durable(h.publication.value.queue[0]);
    OfferChangesNothing(conn.sub, ev);
    hide HubOk, ConnOk, PastOk, RoleOf, Offer, Judge;
    if Judge(conn.sub, ev) == Overflow {
      CutPast(conn, role, AfterOffer(role, Overflow), h.hidden, h.broadcast);
      assert OfferStep(h, c).conns[c] == conn;
    } else {
      OfferPast(conn, role, h.latest, h.hidden, h.abandoned, h.broadcast);
    }
  }

  lemma OfferToPast(h: Hub, c: nat)
    requires HubOk(h) && PublisherEnabled(h, OfferTo(c))
    ensures HistoryOk(PublisherNext(h, OfferTo(c)))
  {
    OfferedPast(h, c);
    hide HubOk, PastOk, RoleOf, Judge, Offer;
    var h' := OfferStep(h, c);
    assert h'.conns.Keys == h.conns.Keys;
    OthersPast(h, h', c);
  }

  lemma SendingRole(h: Hub, step: PublisherStep)
    requires PublicationOk(h) && PublisherEnabled(h, step)
    requires step.WriteLive? || step.MarkLive? || step.FailLive? || step.DropBroken?
    ensures var c, p := h.publication.value.sending.target, h.publication.value;
            && c in h.conns
            && (step.WriteLive? ==> RoleOf(h, c).head == InFlight(p.queue[0]))
            && (step.MarkLive? ==> RoleOf(h, c).head == Sent(p.queue[0]))
            && RoleOf(PublisherNext(h, step), c) ==
               if step.WriteLive? then RoleOf(h, c).(head := Sent(p.queue[0]))
               else if step.MarkLive? then RoleOf(h, c).(head := NoHead)
               else Role(false, NoHead, [])
  {
  }

  lemma LiveSendConnPast(h: Hub, step: PublisherStep)
    requires HubOk(h) && PublisherEnabled(h, step)
    requires step.WriteLive? || step.MarkLive? || step.FailLive? || step.DropBroken?
    ensures var h', c := PublisherNext(h, step), h.publication.value.sending.target;
            c in h'.conns && PastOk(h'.conns[c], RoleOf(h', c), h.hidden, h.broadcast)
  {
    var c := h.publication.value.sending.target;
    var conn, role := h.conns[c], RoleOf(h, c);
    SendingRole(h, step);
    assert ConnOk(conn, role, h.latest, h.hidden, h.abandoned) && PastOk(conn, role, h.hidden, h.broadcast);
    assert SubOk(conn, role);
    hide HubOk, LogOk, Reached, ConnOk, WellFormed, RoleOf;
    match step
    case WriteLive => WriteLivePast(conn, role, h.latest, h.hidden, h.abandoned, h.broadcast);
    case MarkLive => MarkLivePast(conn, role, h.latest, h.hidden, h.abandoned, h.broadcast);
    case FailLive => CutPast(conn, role, Role(false, NoHead, []), h.hidden, h.broadcast);
    case DropBroken => CutPast(conn, role, Role(false, NoHead, []), h.hidden, h.broadcast);
  }

  lemma LiveSendPast(h: Hub, step: PublisherStep)
    requires HubOk(h) && PublisherEnabled(h, step)
    requires step.WriteLive? || step.MarkLive? || step.FailLive? || step.DropBroken?
    ensures HistoryOk(PublisherNext(h, step))
  {
    LiveSendConnPast(h, step);
    LiveSendFrame(h, step);
    hide HubOk, PastOk, RoleOf, PublisherNext;
    OthersPast(h, PublisherNext(h, step), h.publication.value.sending.target);
  }

  lemma StepKeepsHistory(h: Hub, step: Step)
    requires HubOk(h) && Enabled(h, step)
    ensures HistoryOk(Next(h, step))
  {
    hide HubOk, HistoryOk;
    match step
    case Register(c, start) => RegisterPast(h, c, start);
    case Unregister(c) => UnregisterPast(h, c);
    case OnConn(c, conn) => OnConnPast(h, c, conn);
    case Publish(p) =>
      if p.Snapshot? {
        SnapshotStepPast(h);
      } else if p.OfferTo? {
        OfferToPast(h, p.c);
      } else if p.WriteLive? || p.MarkLive? || p.FailLive? || p.DropBroken? {
        LiveSendPast(h, p);
      } else {
        PublicationPast(h, p);
      }
  }

  /** Every step of the delivery machine keeps its invariant. */
  lemma StepKeepsHubOk(h: Hub, step: Step)
    requires HubOk(h) && Enabled(h, step)
    ensures HubOk(Next(h, step))
  {
    StepKeepsState(h, step);
    StepKeepsHistory(h, step);
    hide StateOk, HistoryOk;
  }
}
