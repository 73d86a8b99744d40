/**
  The per-Session publication gate.

  Every caller of `acquire` draws a ticket: a channel that is closed once the
  caller, or the relay goroutine that stands in for a cancelled caller, releases
  it. `tail` maps a Session to the newest ticket that is not released yet. A
  ticket's number is its position in `tickets`, so ticket order is arrival order
  under the gate's mutex.
*/
module PublicationGate {
  import opened Wrappers

  /** Where the owner of a ticket stands. `Relaying` is a cancelled waiter whose goroutine
      still owes the queue its release. */
  datatype Phase = Waiting | Holding | Relaying | Released

  datatype Ticket = Ticket(session: string, previous: Option<nat>, phase: Phase)

  /** `granted` is the history of tickets whose owner was let in, oldest first. */
  datatype Gates = Gates(tail: map<string, nat>, tickets: seq<Ticket>, granted: seq<nat>)

  datatype Step =
    | Enter(session: string)
    | Admit(ticket: nat)
    | Cancel(ticket: nat)
    | Relay(ticket: nat)
    | Release(ticket: nat)

  function Empty(): Gates {
    Gates(map[], [], [])
  }

  predicate PhaseIs(g: Gates, t: nat, phase: Phase) {
    t < |g.tickets| && g.tickets[t].phase == phase
  }

  /** The predecessor's channel is closed, or there was no predecessor. */
  predicate PredecessorDone(g: Gates, t: nat)
    requires t < |g.tickets|
  {
    g.tickets[t].previous.None? || PhaseIs(g, g.tickets[t].previous.value, Released)
  }

  predicate Enabled(g: Gates, step: Step) {
    match step
    case Enter(_) => true
    case Admit(t) => PhaseIs(g, t, Waiting) && PredecessorDone(g, t)
    case Cancel(t) => PhaseIs(g, t, Waiting)
    case Relay(t) => PhaseIs(g, t, Relaying) && PredecessorDone(g, t)
    case Release(t) => PhaseIs(g, t, Holding)
  }

  function WithPhase(g: Gates, t: nat, phase: Phase): Gates
    requires t < |g.tickets|
  {
    g.(tickets := g.tickets[t := g.tickets[t].(phase := phase)])
  }

  /** `release`: forget the tail entry if it is still this ticket, then close the channel. */
  function Close(g: Gates, t: nat): Gates
    requires t < |g.tickets|
  {
    var s := g.tickets[t].session;
    var tail := if s in g.tail && g.tail[s] == t then g.tail - {s} else g.tail;
    WithPhase(g, t, Released).(tail := tail)
  }

  function Apply(g: Gates, step: Step): Gates
    requires Enabled(g, step)
  {
    match step
    case Enter(s) =>
      var t := |g.tickets|;
      var previous := if s in g.tail then Some(g.tail[s]) else None;
      Gates(g.tail[s := t],
            g.tickets + [Ticket(s, previous, if previous.None? then Holding else Waiting)],
            if previous.None? then g.granted + [t] else g.granted)
    case Admit(t) => WithPhase(g, t, Holding).(granted := g.granted + [t])
    case Cancel(t) => WithPhase(g, t, Relaying)
    case Relay(t) => Close(g, t)
    case Release(t) => Close(g, t)
  }

  /** Tickets `i` and `j` queue for the same Session, `i` first. */
  predicate Ahead(g: Gates, i: nat, j: nat) {
    i < j < |g.tickets| && g.tickets[i].session == g.tickets[j].session
  }

  predicate SameSession(g: Gates, i: nat, j: nat) {
    i < |g.tickets| && j < |g.tickets| && g.tickets[i].session == g.tickets[j].session
  }

  ghost predicate TailInv(g: Gates) {
    && (forall s :: s in g.tail ==>
          g.tail[s] < |g.tickets| && g.tickets[g.tail[s]].session == s &&
          g.tickets[g.tail[s]].phase != Released)
    && (forall t :: 0 <= t < |g.tickets| && g.tickets[t].phase != Released ==>
          g.tickets[t].session in g.tail && t <= g.tail[g.tickets[t].session])
  }

  ghost predicate OrderInv(g: Gates) {
    forall i: nat, j: nat :: Ahead(g, i, j) && g.tickets[j].phase in {Holding, Released} ==>
      g.tickets[i].phase == Released
  }

  ghost predicate LinkInv(g: Gates) {
    && (forall t :: 0 <= t < |g.tickets| && g.tickets[t].previous.None? ==>
          g.tickets[t].phase in {Holding, Released})
    && (forall t :: 0 <= t < |g.tickets| && g.tickets[t].previous.Some? ==>
          g.tickets[t].previous.value < t && Ahead(g, g.tickets[t].previous.value, t))
    && (forall i: nat, t: nat :: Ahead(g, i, t) && g.tickets[t].previous.Some? && g.tickets[i].phase != Released ==>
          i <= g.tickets[t].previous.value)
  }

  ghost predicate GrantInv(g: Gates) {
    && (forall k :: 0 <= k < |g.granted| ==>
          g.granted[k] < |g.tickets| && g.tickets[g.granted[k]].phase in {Holding, Released})
    && (forall a, b :: 0 <= a < b < |g.granted| && SameSession(g, g.granted[a], g.granted[b]) ==>
          g.granted[a] < g.granted[b])
    && (forall t :: 0 <= t < |g.tickets| && g.tickets[t].phase == Holding ==> t in g.granted)
  }

  ghost predicate Valid(g: Gates) {
    TailInv(g) && LinkInv(g) && OrderInv(g) && GrantInv(g)
  }

  /** A closed predecessor means that everybody ahead has released. */
  lemma AllEarlierReleased(g: Gates, t: nat)
    requires Valid(g) && t < |g.tickets| && PredecessorDone(g, t)
    ensures forall i: nat :: Ahead(g, i, t) ==> g.tickets[i].phase == Released
  {
    forall i: nat | Ahead(g, i, t)
      ensures g.tickets[i].phase == Released
    {
      if g.tickets[t].previous.Some? {
        var p := g.tickets[t].previous.value;
        assert Ahead(g, p, t);
        if i < p {
          assert Ahead(g, i, p);
        }
      }
    }
  }

  lemma PhaseKeepsLinks(g: Gates, t: nat, phase: Phase)
    requires LinkInv(g) && t < |g.tickets| && g.tickets[t].phase != Released
    requires g.tickets[t].previous.None? ==> phase in {Holding, Released}
    ensures LinkInv(WithPhase(g, t, phase))
  {
    var g' := WithPhase(g, t, phase);
    forall k | 0 <= k < |g'.tickets| && g'.tickets[k].previous.Some?
      ensures g'.tickets[k].previous.value < k && Ahead(g', g'.tickets[k].previous.value, k)
    {
      assert Ahead(g, g.tickets[k].previous.value, k);
    }
    forall i: nat, k: nat | Ahead(g', i, k) && g'.tickets[k].previous.Some? && g'.tickets[i].phase != Released
      ensures i <= g'.tickets[k].previous.value
    {
      assert Ahead(g, i, k);
    }
  }

  lemma PhaseKeepsOrder(g: Gates, t: nat, phase: Phase)
    requires OrderInv(g) && t < |g.tickets| && g.tickets[t].phase != Released
    requires phase in {Holding, Released} ==> forall i: nat :: Ahead(g, i, t) ==> g.tickets[i].phase == Released
    ensures OrderInv(WithPhase(g, t, phase))
  {
    var g' := WithPhase(g, t, phase);
    forall i: nat, j: nat | Ahead(g', i, j) && g'.tickets[j].phase in {Holding, Released}
      ensures g'.tickets[i].phase == Released
    {
      assert Ahead(g, i, j);
    }
  }

  lemma CloseKeepsValid(g: Gates, t: nat)
    requires Valid(g) && t < |g.tickets| && g.tickets[t].phase in {Holding, Relaying} && PredecessorDone(g, t)
    ensures Valid(Close(g, t))
  {
    var g' := Close(g, t);
    AllEarlierReleased(g, t);
    PhaseKeepsLinks(g, t, Released);
    PhaseKeepsOrder(g, t, Released);
    TailAndTicketsOnly(WithPhase(g, t, Released), g');
    CloseKeepsTail(g, t);
    ReleaseKeepsGrants(g, t);
  }

  lemma TailAndTicketsOnly(g: Gates, g': Gates)
    requires g.tickets == g'.tickets
    ensures LinkInv(g) == LinkInv(g') && OrderInv(g) == OrderInv(g')
  {
    assert forall i: nat, j: nat :: Ahead(g, i, j) == Ahead(g', i, j);
  }

  lemma CloseKeepsTail(g: Gates, t: nat)
    requires TailInv(g) && t < |g.tickets| && g.tickets[t].phase != Released
    requires forall i: nat :: Ahead(g, i, t) ==> g.tickets[i].phase == Released
    ensures TailInv(Close(g, t))
  {
    var g' := Close(g, t);
    forall k | 0 <= k < |g'.tickets| && g'.tickets[k].phase != Released
      ensures g'.tickets[k].session in g'.tail && k <= g'.tail[g'.tickets[k].session]
    {
      if g.tickets[k].session == g.tickets[t].session && k < t {
        assert Ahead(g, k, t);
      }
    }
  }

  lemma ReleaseKeepsGrants(g: Gates, t: nat)
    requires GrantInv(g) && t < |g.tickets|
    ensures GrantInv(Close(g, t))
  {
    var g' := Close(g, t);
    assert forall i: nat, j: nat :: SameSession(g, i, j) == SameSession(g', i, j);
  }

  lemma CancelKeepsValid(g: Gates, t: nat)
    requires Valid(g) && Enabled(g, Cancel(t))
    ensures Valid(Apply(g, Cancel(t)))
  {
    PhaseKeepsLinks(g, t, Relaying);
    PhaseKeepsOrder(g, t, Relaying);
    hide LinkInv, OrderInv;
    var g' := WithPhase(g, t, Relaying);
    assert forall i: nat, j: nat :: SameSession(g, i, j) == SameSession(g', i, j);
  }

  lemma AdmitKeepsValid(g: Gates, t: nat)
    requires Valid(g) && Enabled(g, Admit(t))
    ensures Valid(Apply(g, Admit(t)))
  {
    AllEarlierReleased(g, t);
    PhaseKeepsLinks(g, t, Holding);
    PhaseKeepsOrder(g, t, Holding);
    TailAndTicketsOnly(WithPhase(g, t, Holding), Apply(g, Admit(t)));
    AdmitKeepsGrants(g, t);
  }

  lemma AdmitKeepsGrants(g: Gates, t: nat)
    requires Valid(g) && Enabled(g, Admit(t))
    ensures GrantInv(Apply(g, Admit(t)))
  {
    var g' := Apply(g, Admit(t));
    assert forall i: nat, j: nat :: SameSession(g, i, j) == SameSession(g', i, j);
    forall k | 0 <= k < |g.granted| && SameSession(g, g.granted[k], t)
      ensures g.granted[k] < t
    {
      if g.granted[k] > t {
        assert Ahead(g, t, g.granted[k]);
      }
    }
  }

  lemma EnterKeepsLinks(g: Gates, s: string)
    requires Valid(g)
    ensures LinkInv(Apply(g, Enter(s))) && OrderInv(Apply(g, Enter(s)))
  {
    var g' := Apply(g, Enter(s));
    var t := |g.tickets|;
    assert forall i: nat, j: nat :: j < t ==> Ahead(g, i, j) == Ahead(g', i, j);
    if s in g.tail {
      assert Ahead(g', g.tail[s], t);
    }
    forall k | 0 <= k < t && g'.tickets[k].previous.Some?
      ensures Ahead(g', g'.tickets[k].previous.value, k)
    {
      assert Ahead(g, g.tickets[k].previous.value, k);
    }
  }

  lemma EnterKeepsGrants(g: Gates, s: string)
    requires Valid(g)
    ensures GrantInv(Apply(g, Enter(s))) && TailInv(Apply(g, Enter(s)))
  {
    var g' := Apply(g, Enter(s));
    assert forall i: nat, j: nat :: i < |g.tickets| && j < |g.tickets| ==>
             SameSession(g, i, j) == SameSession(g', i, j);
  }

  lemma HolderAtHead(g: Gates, t: nat)
    requires Valid(g) && PhaseIs(g, t, Holding)
    ensures PredecessorDone(g, t)
  {
    if g.tickets[t].previous.Some? {
      assert Ahead(g, g.tickets[t].previous.value, t);
    }
  }

  lemma StepKeepsValid(g: Gates, step: Step)
    requires Valid(g) && Enabled(g, step)
    ensures Valid(Apply(g, step))
  {
    match step
    case Enter(s) =>
      EnterKeepsLinks(g, s);
      EnterKeepsGrants(g, s);
    case Admit(t) => AdmitKeepsValid(g, t);
    case Cancel(t) => CancelKeepsValid(g, t);
    case Relay(t) => CloseKeepsValid(g, t);
    case Release(t) =>
      HolderAtHead(g, t);
      CloseKeepsValid(g, t);
  }

  /** A run of the gate: any interleaving of callers, cancellations and relays. */
  ghost predicate Execution(trace: seq<Gates>) {
    && |trace| > 0
    && trace[0] == Empty()
    && forall i :: 0 <= i < |trace| - 1 ==> StepsTo(trace[i], trace[i + 1])
  }

  ghost predicate StepsTo(g: Gates, g': Gates) {
    exists step :: Enabled(g, step) && g' == Apply(g, step)
  }

  lemma {:induction false} ExecutionValid(trace: seq<Gates>, n: nat)
    requires Execution(trace) && n < |trace|
    ensures Valid(trace[n])
  {
    if n > 0 {
      ExecutionValid(trace, n - 1);
      assert StepsTo(trace[n - 1], trace[n - 1 + 1]);
      var step :| Enabled(trace[n - 1], step) && trace[n] == Apply(trace[n - 1], step);
      StepKeepsValid(trace[n - 1], step);
    }
  }

  /** In every reachable state two callers inside the gate belong to different Sessions. */
  lemma MutualExclusion(trace: seq<Gates>, n: nat, i: nat, j: nat)
    requires Execution(trace) && n < |trace|
    requires PhaseIs(trace[n], i, Holding) && PhaseIs(trace[n], j, Holding)
    requires trace[n].tickets[i].session == trace[n].tickets[j].session
    ensures i == j
  {
    ExecutionValid(trace, n);
    assert Ahead(trace[n], i, j) || Ahead(trace[n], j, i) || i == j;
  }

  /**
    Nobody is let in before everybody who queued earlier for the Session has
    released, whether the earlier ones were admitted or cancelled.
  */
  lemma NoBypass(trace: seq<Gates>, n: nat, t: nat)
    requires Execution(trace) && n < |trace|
    requires PhaseIs(trace[n], t, Holding)
    ensures forall i: nat :: Ahead(trace[n], i, t) ==> trace[n].tickets[i].phase == Released
  {
    ExecutionValid(trace, n);
  }

  /** Within one Session grants follow ticket order. */
  lemma GrantsAreFifo(trace: seq<Gates>, n: nat, a: nat, b: nat)
    requires Execution(trace) && n < |trace|
    requires a < b < |trace[n].granted|
    ensures trace[n].granted[a] < |trace[n].tickets| && trace[n].granted[b] < |trace[n].tickets|
    ensures trace[n].tickets[trace[n].granted[a]].session == trace[n].tickets[trace[n].granted[b]].session ==>
              trace[n].granted[a] < trace[n].granted[b]
  {
    ExecutionValid(trace, n);
  }

  /** The tail map holds exactly the Sessions that have an unreleased ticket: it does not leak. */
  lemma TailIsExact(trace: seq<Gates>, n: nat, s: string)
    requires Execution(trace) && n < |trace|
    ensures s in trace[n].tail <==>
            exists t ::
              0 <= t < |trace[n].tickets| && trace[n].tickets[t].session == s && trace[n].tickets[t].phase != Released
  {
    ExecutionValid(trace, n);
    if s in trace[n].tail {
      var t := trace[n].tail[s];
      assert trace[n].tickets[t].session == s;
    }
  }

  /**
    No Session gets stuck: whenever a ticket is unreleased, the oldest such ticket of its
    Session can take a step that brings it closer to release, with no help from later ones.
  */
  lemma NoStuckSession(trace: seq<Gates>, n: nat, t: nat) returns (head: nat)
    requires Execution(trace) && n < |trace|
    requires t < |trace[n].tickets| && trace[n].tickets[t].phase != Released
    ensures head <= t && head < |trace[n].tickets| && trace[n].tickets[head].session == trace[n].tickets[t].session
    ensures forall i: nat :: Ahead(trace[n], i, head) ==> trace[n].tickets[i].phase == Released
    ensures match trace[n].tickets[head].phase
            case Waiting => Enabled(trace[n], Admit(head))
            case Relaying => Enabled(trace[n], Relay(head))
            case Holding => Enabled(trace[n], Release(head))
            case Released => false
  {
    ExecutionValid(trace, n);
    head := OldestUnreleased(trace[n], t);
  }

  lemma {:induction false} OldestUnreleased(g: Gates, t: nat) returns (head: nat)
    requires Valid(g) && t < |g.tickets| && g.tickets[t].phase != Released
    ensures head <= t && g.tickets[head].session == g.tickets[t].session && g.tickets[head].phase != Released
    ensures forall i: nat :: Ahead(g, i, head) ==> g.tickets[i].phase == Released
    ensures PredecessorDone(g, head)
    decreases t
  {
    if i: nat :| Ahead(g, i, t) && g.tickets[i].phase != Released {
      head := OldestUnreleased(g, i);
    } else {
      head := t;
      if g.tickets[t].previous.Some? {
        assert Ahead(g, g.tickets[t].previous.value, t);
      }
    }
  }

  /** A run together with the steps it takes. */
  ghost predicate Run(trace: seq<Gates>, steps: seq<Step>) {
    && |trace| == |steps| + 1 && trace[0] == Empty()
    && forall i :: 0 <= i < |steps| ==> Enabled(trace[i], steps[i]) && trace[i + 1] == Apply(trace[i], steps[i])
  }

  lemma RunIsExecution(trace: seq<Gates>, steps: seq<Step>)
    requires Run(trace, steps)
    ensures Execution(trace)
  {
    forall i | 0 <= i < |trace| - 1
      ensures StepsTo(trace[i], trace[i + 1])
    {
      assert Enabled(trace[i], steps[i]) && trace[i + 1] == Apply(trace[i], steps[i]);
    }
  }

  /** The ticket has left the queue without having been let in. */
  predicate PassedOver(g: Gates, t: nat) {
    t < |g.tickets| && g.tickets[t].phase != Waiting && t !in g.granted
  }

  ghost predicate CancelledBefore(steps: seq<Step>, n: nat, t: nat)
    requires n <= |steps|
  {
    exists k :: 0 <= k < n && steps[k] == Cancel(t)
  }

  lemma StepPassesOver(g: Gates, step: Step, t: nat)
    requires Valid(g) && Enabled(g, step)
    ensures PassedOver(Apply(g, step), t) <==> PassedOver(g, t) || step == Cancel(t)
  {
    hide TailInv, LinkInv, OrderInv;
  }

  /**
    A ticket is passed over exactly when it was cancelled while it waited: a cancelled ticket is never let in
    later, and every other one that leaves the queue was let in.
  */
  lemma {:induction false} PassedOverIffCancelled(trace: seq<Gates>, steps: seq<Step>, n: nat, t: nat)
    requires Run(trace, steps) && n < |trace|
    ensures PassedOver(trace[n], t) <==> CancelledBefore(steps, n, t)
    decreases n
  {
    if n > 0 {
      PassedOverIffCancelled(trace, steps, n - 1, t);
      RunIsExecution(trace, steps);
      ExecutionValid(trace, n - 1);
      StepPassesOver(trace[n - 1], steps[n - 1], t);
      hide Valid, Apply, Enabled, PassedOver;
    }
  }

  /** Once cancelled, a ticket is never let in. */
  lemma CancelledIsNeverLetIn(trace: seq<Gates>, steps: seq<Step>, k: nat, n: nat, t: nat)
    requires Run(trace, steps) && k < n < |trace| && steps[k] == Cancel(t)
    ensures t !in trace[n].granted && !PhaseIs(trace[n], t, Holding)
  {
    PassedOverIffCancelled(trace, steps, n, t);
    RunIsExecution(trace, steps);
    ExecutionValid(trace, n);
  }

  /**
    The gate object. `Acquire` is the section under the mutex together with the nil check on the
    previous channel; the other methods are the later moments of the same call.
  */
  class SessionPublicationGates {
    var tail: map<string, nat>
    var tickets: seq<Ticket>
    ghost var granted: seq<nat>

    ghost function State(): Gates
      reads this
    {
      Gates(tail, tickets, granted)
    }

    constructor ()
      ensures State() == Empty()
    {
      tail, tickets, granted := map[], [], [];
    }

    method Acquire(session: string) returns (ticket: nat, admitted: bool)
      requires Valid(State())
      modifies this
      ensures State() == Apply(old(State()), Enter(session)) && Valid(State())
      ensures ticket == |old(tickets)| && admitted == PhaseIs(State(), ticket, Holding)
    {
      StepKeepsValid(State(), Enter(session));
      ticket := |tickets|;
      var previous := if session in tail then Some(tail[session]) else None;
      admitted := previous.None?;
      tickets := tickets + [Ticket(session, previous, if admitted then Holding else Waiting)];
      tail := tail[session := ticket];
      if admitted {
        granted := granted + [ticket];
      }
    }

    /** The waiter's `select`: it is let in when the predecessor is done, or gives up when cancelled. */
    method Await(ticket: nat, cancelled: bool) returns (entered: bool, left: bool)
      requires Valid(State()) && PhaseIs(State(), ticket, Waiting)
      modifies this
      ensures Valid(State()) && !(entered && left)
      ensures left == cancelled
      ensures entered == (!cancelled && old(PredecessorDone(State(), ticket)))
      ensures State() == if left then Apply(old(State()), Cancel(ticket))
                         else if entered then Apply(old(State()), Admit(ticket))
                         else old(State())
    {
      entered, left := false, cancelled;
      var done := tickets[ticket].previous.None? ||
                  (tickets[ticket].previous.value < |tickets| &&
                   tickets[tickets[ticket].previous.value].phase == Released);
      if cancelled {
        StepKeepsValid(State(), Cancel(ticket));
        tickets := tickets[ticket := tickets[ticket].(phase := Relaying)];
      } else if done {
        StepKeepsValid(State(), Admit(ticket));
        entered := true;
        tickets := tickets[ticket := tickets[ticket].(phase := Holding)];
        granted := granted + [ticket];
      }
    }

    /** The release closure of a holder, or the relay goroutine of a cancelled waiter. */
    method ReleaseTicket(ticket: nat)
      requires Valid(State())
      requires Enabled(State(), Release(ticket)) || Enabled(State(), Relay(ticket))
      modifies this
      ensures State() == Close(old(State()), ticket) && Valid(State())
    {
      StepKeepsValid(State(), if PhaseIs(State(), ticket, Holding) then Release(ticket) else Relay(ticket));
      var session := tickets[ticket].session;
      if session in tail && tail[session] == ticket {
        tail := tail - {session};
      }
      tickets := tickets[ticket := tickets[ticket].(phase := Released)];
    }
  }
}
