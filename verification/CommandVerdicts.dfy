/**
  What the peers waiting for a command are told. An acknowledgement answers the waiter it looked up when it
  started, whether or not a timeout or a disconnect has taken that waiter meanwhile, so a peer can hear two
  verdicts. The theorems say for every run when it does, and when a rejection is told over a completed row.
*/
module CommandVerdicts {
  import opened Wrappers
  import opened CommandLedger

  // ---- Who speaks ----

  function PeerOf(thread: Thread): Option<nat> {
    match thread
    case Deliverer(_, waiter, _) => waiter.peer
    case Acker(_, client, _, _, _) => client.peer
    case Taker(_, peer, _) => peer
  }

  /** The verdict that a thread has given, if it has given one. */
  function Spoken(thread: Thread): Option<Verdict> {
    match thread
    case Deliverer(_, _, stage) => if stage == GaveUp then Some(Rejected) else None
    case Acker(_, _, accepts, resolved, answered) =>
      if !answered then None else Some(if resolved && accepts then Accepted else Rejected)
    case Taker(_, _, finished) => if finished then Some(Rejected) else None
  }

  predicate Speaks(thread: Thread) {
    Spoken(thread).Some? && PeerOf(thread).Some?
  }

  function Report(thread: Thread, t: nat): seq<Told> {
    if Speaks(thread) then [Told(PeerOf(thread).value, thread.cmd, Spoken(thread).value, Some(t))] else []
  }

  predicate Reported(threads: seq<Thread>, entry: Told) {
    entry.teller.Some? ==>
      entry.teller.value < |threads| && Report(threads[entry.teller.value], entry.teller.value) == [entry]
  }

  ghost predicate HasTold(told: seq<Told>, t: nat) {
    exists k :: 0 <= k < |told| && told[k].teller == Some(t)
  }

  ghost predicate Once(told: seq<Told>) {
    forall j, k :: 0 <= j < k < |told| && told[j].teller.Some? ==> told[j].teller != told[k].teller
  }

  /** Each thread that has spoken to a peer is in the log exactly once, with its verdict, and nothing else is. */
  ghost predicate LogOk(h: Hub) {
    && (forall k :: 0 <= k < |h.told| ==> Reported(h.threads, h.told[k]))
    && (forall t :: 0 <= t < |h.threads| && Speaks(h.threads[t]) ==> HasTold(h.told, t))
    && Once(h.told)
  }

  /** A thread that has spoken is over. */
  lemma SpokenStays(h: Hub, step: Step, t: nat)
    requires Enabled(h, step) && t < |h.threads| && Spoken(h.threads[t]).Some?
    ensures t < |Next(h, step).threads| && Next(h, step).threads[t] == h.threads[t]
  {
    OthersStay(h, step, t);
    hide Next;
  }

  /** A step that moves a thread logs what that thread now says; any other logs at most an answer to a send. */
  lemma StepReports(h: Hub, step: Step)
    requires Enabled(h, step)
    ensures Moves(step).Some? ==>
              var t := Moves(step).value;
              && t < |h.threads| == |Next(h, step).threads| && Spoken(h.threads[t]).None?
              && Next(h, step).told == h.told + Report(Next(h, step).threads[t], t)
    ensures Moves(step).None? ==>
              && h.threads <= Next(h, step).threads
              && (forall t :: |h.threads| <= t < |Next(h, step).threads| ==> Spoken(Next(h, step).threads[t]).None?)
              && (Next(h, step).told == h.told ||
                  exists e: Told :: e.teller.None? && Next(h, step).told == h.told + [e])
  {
    StepEffect(h, step);
    hide Next, RowsMoved;
  }

  lemma ReportedStays(h: Hub, step: Step, k: nat)
    requires LogOk(h) && Enabled(h, step) && k < |h.told|
    ensures Reported(Next(h, step).threads, h.told[k])
  {
    hide Next;
    assert Reported(h.threads, h.told[k]);
    if h.told[k].teller.Some? {
      SpokenStays(h, step, h.told[k].teller.value);
    }
  }

  lemma ToldStays(before: seq<Told>, after: seq<Told>, t: nat)
    requires before <= after && HasTold(before, t)
    ensures HasTold(after, t)
  {
    var k :| 0 <= k < |before| && before[k].teller == Some(t);
    assert after[k] == before[k];
  }

  /** The thread that a step moves had not spoken, so it was not in the log. */
  lemma OnceStep(h: Hub, step: Step)
    requires LogOk(h) && Enabled(h, step)
    ensures Once(Next(h, step).told)
  {
    var h' := Next(h, step);
    StepReports(h, step);
    hide Next, Enabled, Spoken, PeerOf;
    forall j, k | 0 <= j < k < |h'.told| && h'.told[j].teller.Some?
      ensures h'.told[j].teller != h'.told[k].teller
    {
      assert Reported(h.threads, h.told[j]);
    }
  }

  lemma TellersStep(h: Hub, step: Step, t: nat)
    requires LogOk(h) && Enabled(h, step) && t < |Next(h, step).threads| && Speaks(Next(h, step).threads[t])
    ensures HasTold(Next(h, step).told, t)
  {
    var h' := Next(h, step);
    StepReports(h, step);
    hide Next, Enabled, Spoken, PeerOf, Reported, Once;
    if Moves(step) == Some(t) {
      assert h'.told[|h.told|].teller == Some(t);
    } else {
      OthersStay(h, step, t);
      ToldStays(h.told, h'.told, t);
    }
  }

  lemma ReportedStep(h: Hub, step: Step, k: nat)
    requires LogOk(h) && Enabled(h, step) && k < |Next(h, step).told|
    ensures Reported(Next(h, step).threads, Next(h, step).told[k])
  {
    StepReports(h, step);
    hide Next, Enabled, Spoken, PeerOf, Once;
    if k < |h.told| {
      ReportedStays(h, step, k);
    }
  }

  lemma LogStep(h: Hub, step: Step)
    requires LogOk(h) && Enabled(h, step)
    ensures LogOk(Next(h, step))
  {
    var h' := Next(h, step);
    OnceStep(h, step);
    hide Next, Enabled, Speaks, Reported, Once, HasTold;
    forall k | 0 <= k < |h'.told|
      ensures Reported(h'.threads, h'.told[k])
    {
      ReportedStep(h, step, k);
    }
    forall t | 0 <= t < |h'.threads| && Speaks(h'.threads[t])
      ensures HasTold(h'.told, t)
    {
      TellersStep(h, step, t);
    }
  }

  // ---- Who waits ----

  /** The row is claimed and its claimant is past registering the waiter, so nothing registers one again. */
  ghost predicate Settled(h: Hub, cmd: string) {
    && cmd in h.claimant && h.claimant[cmd] < |h.threads| && h.threads[h.claimant[cmd]].Deliverer?
    && var thread := h.threads[h.claimant[cmd]];
       thread.cmd == cmd && (thread.stage == Registered || thread.stage == Delivered || thread.stage == GaveUp)
  }

  ghost function ClaimantOf(h: Hub, cmd: string): Thread
    requires Settled(h, cmd)
  {
    h.threads[h.claimant[cmd]]
  }

  ghost predicate Seated(h: Hub, cmd: string)
    requires cmd in h.clients
  {
    Settled(h, cmd) && ClaimantOf(h, cmd).stage != GaveUp && ClaimantOf(h, cmd).waiter == h.clients[cmd]
  }

  /** An acknowledgement or a taker speaks to the claimant's waiter; having answered or taken, it left no entry. */
  ghost predicate VoiceOk(h: Hub, thread: Thread) {
    match thread
    case Deliverer(cmd, _, _) => cmd in h.rows
    case Acker(cmd, client, _, _, answered) =>
      Settled(h, cmd) && client == ClaimantOf(h, cmd).waiter && (answered ==> cmd !in h.clients)
    case Taker(cmd, peer, _) => Settled(h, cmd) && peer == ClaimantOf(h, cmd).waiter.peer && cmd !in h.clients
  }

  predicate SentBy(thread: Thread, cmd: string) {
    thread.Deliverer? && thread.cmd == cmd && thread.waiter.peer.Some?
  }

  /** One send of a command delivers it; every other delivery of it is a redelivery, which has no peer. */
  ghost predicate OneSender(h: Hub) {
    forall t, u, cmd ::
      0 <= t < |h.threads| && 0 <= u < |h.threads| && SentBy(h.threads[t], cmd) && SentBy(h.threads[u], cmd) ==> t == u
  }

  ghost predicate WaitersOk(h: Hub) {
    && (forall cmd :: cmd in h.clients ==> Seated(h, cmd))
    && (forall t :: 0 <= t < |h.threads| ==> VoiceOk(h, h.threads[t]))
    && OneSender(h)
  }

  lemma SettledStays(h: Hub, step: Step, cmd: string)
    requires HubOk(h) && Enabled(h, step) && Settled(h, cmd)
    ensures Settled(Next(h, step), cmd)
    ensures ClaimantOf(Next(h, step), cmd).waiter == ClaimantOf(h, cmd).waiter
    ensures ClaimantOf(h, cmd).stage == GaveUp ==> ClaimantOf(Next(h, step), cmd).stage == GaveUp
  {
    StepEffect(h, step);
    ClaimantsGrow(h, step, cmd);
    OthersStay(h, step, h.claimant[cmd]);
    hide Next, RowsMoved, HubOk;
  }

  /** Only the claimant registers a waiter, so an entry that has left stays out. */
  lemma LeavesForGood(h: Hub, step: Step, cmd: string)
    requires HubOk(h) && Enabled(h, step) && Settled(h, cmd) && cmd !in h.clients
    ensures cmd !in Next(h, step).clients
  {
    StepEffect(h, step);
    if step.Register? {
      assert ThreadOk(h, step.t);
    }
    hide Next, RowsMoved, HubOk;
  }

  /** Registering seats the claimant's own waiter. */
  lemma RegisterSeats(h: Hub, step: Step)
    requires HubOk(h) && Enabled(h, step) && step.Register?
    ensures var cmd := h.threads[step.t].cmd; cmd in Next(h, step).clients && Seated(Next(h, step), cmd)
  {
    StepEffect(h, step);
    assert ThreadOk(h, step.t);
    hide Next, HubOk, RowsMoved;
  }

  /** An entry that a step leaves in place was there before, and its claimant had not given up. */
  lemma EntryStays(h: Hub, step: Step, cmd: string)
    requires HubOk(h) && Enabled(h, step) && cmd in Next(h, step).clients
    requires !(step.Register? && h.threads[step.t].cmd == cmd)
    ensures cmd in h.clients && h.clients[cmd] == Next(h, step).clients[cmd]
    ensures Seated(h, cmd) ==> Seated(Next(h, step), cmd)
  {
    StepEffect(h, step);
    if cmd in h.clients && Seated(h, cmd) {
      SettledStays(h, step, cmd);
      OthersStay(h, step, h.claimant[cmd]);
      ClaimantsGrow(h, step, cmd);
    }
    hide Next, RowsMoved, HubOk;
  }

  lemma SeatedStep(h: Hub, step: Step, cmd: string)
    requires HubOk(h) && WaitersOk(h) && Enabled(h, step) && cmd in Next(h, step).clients
    ensures Seated(Next(h, step), cmd)
  {
    hide Next, HubOk, Seated;
    if step.Register? && h.threads[step.t].cmd == cmd {
      RegisterSeats(h, step);
    } else {
      EntryStays(h, step, cmd);
    }
  }

  lemma VoiceStays(h: Hub, step: Step, t: nat)
    requires HubOk(h) && WaitersOk(h) && Enabled(h, step) && t < |h.threads|
    ensures t < |Next(h, step).threads| && VoiceOk(Next(h, step), Next(h, step).threads[t])
  {
    StepEffect(h, step);
    OthersStay(h, step, t);
    var cmd := h.threads[t].cmd;
    assert VoiceOk(h, h.threads[t]);
    if cmd in h.rows {
      RowsAreFinal(h, step, cmd);
    }
    if Settled(h, cmd) {
      SettledStays(h, step, cmd);
      if cmd !in h.clients {
        LeavesForGood(h, step, cmd);
      }
    }
    hide Next, RowsMoved, HubOk, WaitersOk, Settled;
  }

  lemma VoiceStarts(h: Hub, step: Step, t: nat)
    requires HubOk(h) && WaitersOk(h) && Enabled(h, step) && |h.threads| <= t < |Next(h, step).threads|
    ensures VoiceOk(Next(h, step), Next(h, step).threads[t])
  {
    StepEffect(h, step);
    if step.StartAck? || step.Take? {
      assert Seated(h, step.cmd);
      SettledStays(h, step, step.cmd);
    }
    hide Next, RowsMoved, HubOk, WaitersOk, Settled;
  }

  /** A thread keeps its kind, its command and its peer. */
  lemma KindStays(h: Hub, step: Step, t: nat)
    requires Enabled(h, step) && t < |h.threads|
    ensures t < |Next(h, step).threads|
    ensures var a, b := h.threads[t], Next(h, step).threads[t];
            && a.cmd == b.cmd && PeerOf(a) == PeerOf(b) && (a.Deliverer? <==> b.Deliverer?) && (a.Taker? <==> b.Taker?)
            && (a.Acker? ==> b.accepts == a.accepts && (a.resolved ==> b.resolved))
  {
    StepEffect(h, step);
    OthersStay(h, step, t);
    hide Next, RowsMoved;
  }

  /** A send starts a delivery only for a command that has no row, hence no thread. */
  lemma SenderStarts(h: Hub, step: Step, t: nat)
    requires HubOk(h) && Enabled(h, step) && |h.threads| <= t < |Next(h, step).threads|
    ensures t == |h.threads| && |Next(h, step).threads| == t + 1
    ensures SentBy(Next(h, step).threads[t], Next(h, step).threads[t].cmd) ==> Next(h, step).threads[t].cmd !in h.rows
  {
    StepEffect(h, step);
    hide Next, RowsMoved, HubOk;
  }

  lemma SenderWas(h: Hub, step: Step, t: nat, cmd: string)
    requires HubOk(h) && WaitersOk(h) && Enabled(h, step)
    requires t < |Next(h, step).threads| && SentBy(Next(h, step).threads[t], cmd)
    ensures if t < |h.threads| then SentBy(h.threads[t], cmd) && cmd in h.rows else t == |h.threads| && cmd !in h.rows
  {
    hide Next, HubOk, Enabled, Settled, OneSender;
    if t < |h.threads| {
      KindStays(h, step, t);
      assert VoiceOk(h, h.threads[t]);
    } else {
      SenderStarts(h, step, t);
    }
  }

  lemma SendersStep(h: Hub, step: Step)
    requires HubOk(h) && WaitersOk(h) && Enabled(h, step)
    ensures OneSender(Next(h, step))
  {
    var h' := Next(h, step);
    assert OneSender(h);
    hide Next, HubOk, Enabled, WaitersOk, SentBy;
    forall t, u, cmd |
      0 <= t < |h'.threads| && 0 <= u < |h'.threads| && SentBy(h'.threads[t], cmd) && SentBy(h'.threads[u], cmd)
      ensures t == u
    {
      SenderWas(h, step, t, cmd);
      SenderWas(h, step, u, cmd);
    }
  }

  lemma WaitersStep(h: Hub, step: Step)
    requires HubOk(h) && WaitersOk(h) && Enabled(h, step)
    ensures WaitersOk(Next(h, step))
  {
    var h' := Next(h, step);
    SendersStep(h, step);
    hide Next, HubOk, Enabled, Seated, VoiceOk, OneSender;
    forall cmd | cmd in h'.clients
      ensures Seated(h', cmd)
    {
      SeatedStep(h, step, cmd);
    }
    forall t | 0 <= t < |h'.threads|
      ensures VoiceOk(h', h'.threads[t])
    {
      if t < |h.threads| {
        VoiceStays(h, step, t);
      } else {
        VoiceStarts(h, step, t);
      }
    }
  }

  lemma {:induction false} TraceOk(trace: seq<Hub>, steps: seq<Step>, n: nat)
    requires Execution(trace, steps) && n < |trace|
    ensures HubOk(trace[n]) && LogOk(trace[n]) && WaitersOk(trace[n])
    decreases n
  {
    ExecutionOk(trace, steps, n);
    hide Next, HubOk, LogOk, WaitersOk;
    if n > 0 {
      TraceOk(trace, steps, n - 1);
      LogStep(trace[n - 1], steps[n - 1]);
      WaitersStep(trace[n - 1], steps[n - 1]);
    } else {
      EmptyWaits();
    }
  }

  lemma EmptyWaits()
    ensures LogOk(Empty()) && WaitersOk(Empty())
  {
  }

  // ---- Along a run ----

  lemma {:induction false} SettledLater(trace: seq<Hub>, steps: seq<Step>, i: nat, j: nat, cmd: string)
    requires Execution(trace, steps) && i <= j < |trace| && Settled(trace[i], cmd)
    ensures Settled(trace[j], cmd) && ClaimantOf(trace[j], cmd).waiter == ClaimantOf(trace[i], cmd).waiter
    ensures ClaimantOf(trace[i], cmd).stage == GaveUp ==> ClaimantOf(trace[j], cmd).stage == GaveUp
    ensures cmd !in trace[i].clients ==> cmd !in trace[j].clients
    decreases j
  {
    hide Next, HubOk, Settled, ClaimantOf, Enabled;
    if i < j {
      SettledLater(trace, steps, i, j - 1, cmd);
      ExecutionOk(trace, steps, j - 1);
      SettledStays(trace[j - 1], steps[j - 1], cmd);
      if cmd !in trace[j - 1].clients {
        LeavesForGood(trace[j - 1], steps[j - 1], cmd);
      }
    }
  }

  /** A thread is what it was, though perhaps further on. */
  predicate SameKind(a: Thread, b: Thread) {
    && a.cmd == b.cmd && PeerOf(a) == PeerOf(b) && (a.Deliverer? <==> b.Deliverer?) && (a.Taker? <==> b.Taker?)
    && (a.Acker? ==> b.accepts == a.accepts && (a.resolved ==> b.resolved))
    && (Spoken(a).Some? ==> b == a)
  }

  lemma {:induction false} ThreadLater(trace: seq<Hub>, steps: seq<Step>, i: nat, j: nat, t: nat)
    requires Execution(trace, steps) && i <= j < |trace| && t < |trace[i].threads|
    ensures t < |trace[j].threads| && SameKind(trace[i].threads[t], trace[j].threads[t])
    decreases j
  {
    hide Next, Enabled, PeerOf, Spoken;
    if i < j {
      ThreadLater(trace, steps, i, j - 1, t);
      KindStays(trace[j - 1], steps[j - 1], t);
      if Spoken(trace[j - 1].threads[t]).Some? {
        SpokenStays(trace[j - 1], steps[j - 1], t);
      }
    }
  }

  lemma StepStarts(h: Hub, step: Step)
    requires Enabled(h, step) && |h.threads| < |Next(h, step).threads|
    ensures var thread := Next(h, step).threads[|h.threads|];
            && |Next(h, step).threads| == |h.threads| + 1
            && (thread.Acker? ==> step == StartAck(thread.cmd, thread.accepts))
            && (thread.Taker? ==> step == Take(thread.cmd))
  {
    StepEffect(h, step);
    hide Next, RowsMoved;
  }

  lemma {:induction false} StartStep(trace: seq<Hub>, steps: seq<Step>, n: nat, t: nat) returns (k: nat)
    requires Execution(trace, steps) && n < |trace| && t < |trace[n].threads|
    ensures k < n && |trace[k].threads| <= t < |trace[k + 1].threads|
    decreases n
  {
    hide Next, Enabled;
    if t < |trace[n - 1].threads| {
      k := StartStep(trace, steps, n - 1, t);
    } else {
      k := n - 1;
    }
  }

  /** The step that started an acknowledgement or a taker. */
  lemma Started(trace: seq<Hub>, steps: seq<Step>, n: nat, t: nat) returns (k: nat)
    requires Execution(trace, steps) && n < |trace| && t < |trace[n].threads|
    ensures k < n && |trace[k].threads| == t
    ensures var thread := trace[n].threads[t];
            && (thread.Acker? ==> steps[k] == StartAck(thread.cmd, thread.accepts))
            && (thread.Taker? ==> steps[k] == Take(thread.cmd))
  {
    hide Next, Enabled, PeerOf, Spoken;
    k := StartStep(trace, steps, n, t);
    StepStarts(trace[k], steps[k]);
    ThreadLater(trace, steps, k + 1, n, t);
  }

  /** Once a waiter was taken or answered there is no entry left to take or to acknowledge. */
  lemma OutAfter(trace: seq<Hub>, steps: seq<Step>, k: nat, n: nat, cmd: string)
    requires Execution(trace, steps) && k < n < |trace|
    requires steps[k] == Take(cmd) || (steps[k].FinishAck? && trace[k].threads[steps[k].t].cmd == cmd)
    ensures cmd !in trace[n].clients
  {
    var h := trace[k];
    TraceOk(trace, steps, k);
    StepEffect(h, steps[k]);
    if steps[k].Take? {
      assert Seated(h, cmd);
    } else {
      assert VoiceOk(h, h.threads[steps[k].t]);
    }
    SettledStays(h, steps[k], cmd);
    assert cmd !in trace[k + 1].clients;
    hide Next, HubOk, WaitersOk, LogOk, Enabled;
    SettledLater(trace, steps, k + 1, n, cmd);
  }

  // ---- When a peer hears two verdicts ----

  /** The acknowledgement that starts at `i` as thread `t` answers at `j`. */
  predicate AnswersAt(trace: seq<Hub>, steps: seq<Step>, i: nat, j: nat, t: nat, cmd: string, accepts: bool) {
    && i < j < |steps| && |trace| == |steps| + 1
    && steps[i] == StartAck(cmd, accepts) && t == |trace[i].threads| && steps[j] == FinishAck(t)
  }

  ghost predicate Taken(h: Hub, cmd: string) {
    exists u :: 0 <= u < |h.threads| && h.threads[u].Taker? && h.threads[u].cmd == cmd
  }

  ghost predicate TakenBetween(steps: seq<Step>, i: nat, j: nat, cmd: string) {
    exists k :: i < k < j && k < |steps| && steps[k] == Take(cmd)
  }

  lemma AnswererIs(trace: seq<Hub>, steps: seq<Step>, i: nat, j: nat, n: nat, t: nat, cmd: string, accepts: bool)
    requires Execution(trace, steps) && AnswersAt(trace, steps, i, j, t, cmd, accepts) && i < n < |trace|
    ensures cmd in trace[i].clients && t < |trace[n].threads|
    ensures var thread := trace[n].threads[t];
            && thread.Acker? && thread.cmd == cmd && thread.accepts == accepts
            && thread.client.peer == trace[i].clients[cmd].peer
            && (n == j ==> !thread.answered)
            && (j < n ==> Spoken(thread) == Some(if accepts then Accepted else Rejected))
  {
    StepEffect(trace[i], steps[i]);
    StepEffect(trace[j], steps[j]);
    ThreadLater(trace, steps, i + 1, n, t);
    if j < n {
      ThreadLater(trace, steps, i + 1, j, t);
      ThreadLater(trace, steps, j + 1, n, t);
    }
    hide Next, RowsMoved;
  }

  /**
    A waiter that an acknowledgement answers is, or will be, told rejected by a timeout or a disconnect too,
    if and only if that one took the waiter while the acknowledgement was between its look-up and its answer.
  */
  lemma TakenIffBetween(
    trace: seq<Hub>, steps: seq<Step>, i: nat, j: nat, n: nat, t: nat, cmd: string, accepts: bool)
    requires Execution(trace, steps) && AnswersAt(trace, steps, i, j, t, cmd, accepts) && j < n < |trace|
    ensures Taken(trace[n], cmd) <==> TakenBetween(steps, i, j, cmd)
  {
    AnswererIs(trace, steps, i, j, j, t, cmd, accepts);
    hide Next, Enabled, PeerOf, Spoken;
    if Taken(trace[n], cmd) {
      var u :| 0 <= u < |trace[n].threads| && trace[n].threads[u].Taker? && trace[n].threads[u].cmd == cmd;
      var k := Started(trace, steps, n, u);
      TakeEnabled(trace, steps, k, cmd);
      if k < i {
        OutAfter(trace, steps, k, i, cmd);
      } else if j < k {
        OutAfter(trace, steps, j, k, cmd);
      }
    }
    if TakenBetween(steps, i, j, cmd) {
      var k :| i < k < j && steps[k] == Take(cmd);
      var u := TakeStarts(trace, steps, k, cmd);
      ThreadLater(trace, steps, k + 1, n, u);
    }
  }

  lemma TakeEnabled(trace: seq<Hub>, steps: seq<Step>, k: nat, cmd: string)
    requires Execution(trace, steps) && k < |steps| && steps[k] == Take(cmd)
    ensures cmd in trace[k].clients
  {
    hide Next;
  }

  lemma TakeStarts(trace: seq<Hub>, steps: seq<Step>, k: nat, cmd: string) returns (u: nat)
    requires Execution(trace, steps) && k < |steps| && steps[k] == Take(cmd)
    ensures u < |trace[k + 1].threads| && trace[k + 1].threads[u].Taker? && trace[k + 1].threads[u].cmd == cmd
  {
    StepEffect(trace[k], steps[k]);
    u := |trace[k].threads|;
    hide Next;
  }

  /** What a thread has said to its peer is in the log. */
  lemma SaidIsTold(h: Hub, t: nat)
    requires LogOk(h) && t < |h.threads| && Speaks(h.threads[t])
    ensures Told(PeerOf(h.threads[t]).value, h.threads[t].cmd, Spoken(h.threads[t]).value, Some(t)) in h.told
  {
    assert HasTold(h.told, t);
    var k :| 0 <= k < |h.told| && h.told[k].teller == Some(t);
    assert Reported(h.threads, h.told[k]);
    hide PeerOf, Spoken;
  }

  /** In those two cases both speak to the same peer: one has answered it, the other has or is about to. */
  lemma TakerTellsToo(
    trace: seq<Hub>, steps: seq<Step>, i: nat, j: nat, n: nat, t: nat, u: nat, cmd: string, accepts: bool)
    requires Execution(trace, steps) && AnswersAt(trace, steps, i, j, t, cmd, accepts) && j < n < |trace|
    requires cmd in trace[i].clients && trace[i].clients[cmd].peer.Some?
    requires u < |trace[n].threads| && trace[n].threads[u].Taker? && trace[n].threads[u].cmd == cmd
    ensures var p := trace[i].clients[cmd].peer.value;
            && Told(p, cmd, if accepts then Accepted else Rejected, Some(t)) in trace[n].told
            && (Told(p, cmd, Rejected, Some(u)) in trace[n].told || Enabled(trace[n], FinishTake(u, false)))
  {
    AnswererIs(trace, steps, i, j, n, t, cmd, accepts);
    TraceOk(trace, steps, n);
    var h := trace[n];
    assert VoiceOk(h, h.threads[t]) && VoiceOk(h, h.threads[u]);
    SaidIsTold(h, t);
    if h.threads[u].finished {
      SaidIsTold(h, u);
    }
    hide Next, Execution, LogOk, WaitersOk, HubOk, Settled;
  }

  // ---- When a peer hears one verdict ----

  /** A thread that has told or may still tell the peer waiting for the command. */
  predicate Voice(h: Hub, u: nat, cmd: string) {
    && u < |h.threads| && h.threads[u].cmd == cmd
    && (h.threads[u].Deliverer? ==> Speaks(h.threads[u]))
  }

  ghost predicate OnlyVoice(h: Hub, t: nat, cmd: string) {
    forall u: nat :: Voice(h, u, cmd) ==> u == t
  }

  ghost predicate OnlyAcker(h: Hub, t: nat, cmd: string) {
    forall u: nat :: u < |h.threads| && h.threads[u].Acker? && h.threads[u].cmd == cmd ==> u == t
  }

  ghost predicate WriteFailed(h: Hub, cmd: string) {
    Settled(h, cmd) && ClaimantOf(h, cmd).stage == GaveUp
  }

  /** An entry leaves because a taker, a failed write or a finished acknowledgement of that command removed it. */
  lemma LeftBy(h: Hub, step: Step, cmd: string) returns (u: nat)
    requires Enabled(h, step) && cmd in h.clients && cmd !in Next(h, step).clients
    ensures u < |Next(h, step).threads| && Next(h, step).threads[u].cmd == cmd
    ensures var thread := Next(h, step).threads[u];
            thread.Taker? || (thread.Deliverer? && thread.stage == GaveUp) || (thread.Acker? && thread.answered)
    ensures Next(h, step).threads[u].Deliverer? ==>
              step.Write? && step.result.Failed? && step.t == u && h.threads[u].cmd == cmd
  {
    StepEffect(h, step);
    u := if step.Take? then |h.threads| else Moves(step).value;
    hide Next, RowsMoved;
  }

  lemma VoiceLater(trace: seq<Hub>, steps: seq<Step>, i: nat, j: nat, u: nat, cmd: string)
    requires Execution(trace, steps) && i <= j < |trace| && Voice(trace[i], u, cmd)
    ensures Voice(trace[j], u, cmd)
  {
    hide Next, Enabled, PeerOf, Spoken;
    ThreadLater(trace, steps, i, j, u);
  }

  /** The waiter of an entry is its claimant's, and stays so. */
  lemma WaiterLater(trace: seq<Hub>, steps: seq<Step>, i: nat, j: nat, cmd: string)
    requires Execution(trace, steps) && i <= j < |trace| && cmd in trace[i].clients
    ensures Settled(trace[j], cmd) && ClaimantOf(trace[j], cmd).waiter == trace[i].clients[cmd]
    ensures cmd in trace[j].clients ==> trace[j].clients[cmd] == trace[i].clients[cmd]
  {
    TraceOk(trace, steps, i);
    TraceOk(trace, steps, j);
    assert Seated(trace[i], cmd);
    SettledLater(trace, steps, i, j, cmd);
    if cmd in trace[j].clients {
      assert Seated(trace[j], cmd);
    }
    hide Next, HubOk, LogOk, WaitersOk, Execution, Settled;
  }

  /** A failed write speaks to the waiter whose entry it removes. */
  lemma FailedWriteSpeaks(h: Hub, step: Step)
    requires HubOk(h) && WaitersOk(h) && Enabled(h, step) && step.Write? && step.result.Failed?
    requires var cmd := h.threads[step.t].cmd; cmd in h.clients && h.clients[cmd].peer.Some?
    ensures step.t < |Next(h, step).threads| && Speaks(Next(h, step).threads[step.t])
  {
    StepEffect(h, step);
    assert ThreadOk(h, step.t) && Seated(h, h.threads[step.t].cmd);
    hide Next, RowsMoved, HubOk, WaitersOk;
  }

  lemma LeavingVoice(h: Hub, step: Step, cmd: string) returns (u: nat)
    requires HubOk(h) && WaitersOk(h) && Enabled(h, step)
    requires cmd in h.clients && h.clients[cmd].peer.Some? && cmd !in Next(h, step).clients
    ensures Voice(Next(h, step), u, cmd)
    ensures Next(h, step).threads[u].Acker? ==> Next(h, step).threads[u].answered
  {
    hide Next, HubOk, WaitersOk, PeerOf;
    u := LeftBy(h, step, cmd);
    if Next(h, step).threads[u].Deliverer? {
      FailedWriteSpeaks(h, step);
    }
  }

  /** When an entry with a peer has left, some thread other than an acknowledgement still to answer speaks for it. */
  lemma {:induction false} LeftVoice(trace: seq<Hub>, steps: seq<Step>, i: nat, j: nat, cmd: string) returns (u: nat)
    requires Execution(trace, steps) && i <= j < |trace|
    requires cmd in trace[i].clients && trace[i].clients[cmd].peer.Some? && cmd !in trace[j].clients
    ensures Voice(trace[j], u, cmd) && (trace[j].threads[u].Acker? ==> trace[j].threads[u].answered)
    decreases j
  {
    hide Next, Enabled, PeerOf, HubOk, LogOk, WaitersOk, Settled, ClaimantOf;
    if cmd !in trace[j - 1].clients {
      u := LeftVoice(trace, steps, i, j - 1, cmd);
      VoiceLater(trace, steps, j - 1, j, u, cmd);
      ThreadLater(trace, steps, j - 1, j, u);
    } else {
      TraceOk(trace, steps, j - 1);
      WaiterLater(trace, steps, i, j - 1, cmd);
      u := LeavingVoice(trace[j - 1], steps[j - 1], cmd);
    }
  }

  lemma FailedClaimantSpeaks(h: Hub, cmd: string)
    requires WriteFailed(h, cmd) && ClaimantOf(h, cmd).waiter.peer.Some?
    ensures h.threads[h.claimant[cmd]].Deliverer? && Voice(h, h.claimant[cmd], cmd)
  {
  }

  lemma OnlyVoiceMeans(
    trace: seq<Hub>, steps: seq<Step>, i: nat, j: nat, n: nat, t: nat, cmd: string, accepts: bool)
    requires Execution(trace, steps) && AnswersAt(trace, steps, i, j, t, cmd, accepts) && j < n < |trace|
    requires cmd in trace[i].clients && trace[i].clients[cmd].peer.Some? && OnlyVoice(trace[n], t, cmd)
    ensures cmd in trace[j].clients && OnlyAcker(trace[j], t, cmd) && !WriteFailed(trace[n], cmd)
  {
    AnswererIs(trace, steps, i, j, j, t, cmd, accepts);
    AnswererIs(trace, steps, i, j, n, t, cmd, accepts);
    WaiterLater(trace, steps, i, n, cmd);
    hide Next, Enabled, Settled;
    if WriteFailed(trace[n], cmd) {
      FailedClaimantSpeaks(trace[n], cmd);
    }
    if cmd !in trace[j].clients {
      var u := LeftVoice(trace, steps, i, j, cmd);
      VoiceLater(trace, steps, j, n, u, cmd);
    }
    forall u: nat | u < |trace[j].threads| && trace[j].threads[u].Acker? && trace[j].threads[u].cmd == cmd
      ensures u == t
    {
      VoiceLater(trace, steps, j, n, u, cmd);
    }
  }

  lemma VoiceMeans(
    trace: seq<Hub>, steps: seq<Step>, i: nat, j: nat, n: nat, t: nat, u: nat, cmd: string, accepts: bool)
    requires Execution(trace, steps) && AnswersAt(trace, steps, i, j, t, cmd, accepts) && j < n < |trace|
    requires cmd in trace[i].clients && trace[i].clients[cmd].peer.Some?
    requires cmd in trace[j].clients && OnlyAcker(trace[j], t, cmd) && !WriteFailed(trace[n], cmd)
    requires Voice(trace[n], u, cmd)
    ensures u == t
  {
    AnswererIs(trace, steps, i, j, j, t, cmd, accepts);
    match trace[n].threads[u]
    case Deliverer(_, _, _) =>
      WaiterLater(trace, steps, i, n, cmd);
      TraceOk(trace, steps, n);
      OneSenderIsClaimant(trace[n], u, cmd);
    case Acker(_, _, _, _, _) =>
      hide Next, PeerOf, Spoken;
      var k := Started(trace, steps, n, u);
      if j < k {
        OutAfter(trace, steps, j, k, cmd);
      } else {
        StartedBy(trace, steps, k, u);
        ThreadLater(trace, steps, k + 1, j, u);
        ThreadLater(trace, steps, j, n, u);
      }
    case Taker(_, _, _) =>
      hide Next, PeerOf, Spoken;
      TakenIffBetween(trace, steps, i, j, n, t, cmd, accepts);
      var k :| i < k < j && k < |steps| && steps[k] == Take(cmd);
      OutAfter(trace, steps, k, j, cmd);
  }

  lemma OneSenderIsClaimant(h: Hub, u: nat, cmd: string)
    requires OneSender(h) && Settled(h, cmd) && ClaimantOf(h, cmd).waiter.peer.Some?
    requires u < |h.threads| && SentBy(h.threads[u], cmd)
    ensures u == h.claimant[cmd]
  {
    assert SentBy(h.threads[h.claimant[cmd]], cmd);
  }

  lemma StartedBy(trace: seq<Hub>, steps: seq<Step>, k: nat, u: nat)
    requires Execution(trace, steps) && k < |steps| && steps[k].StartAck? && u == |trace[k].threads|
    ensures u < |trace[k + 1].threads|
  {
    StepEffect(trace[k], steps[k]);
    hide Next;
  }

  /**
    An acknowledgement is the only one that speaks to the waiter it answers, if and only if the entry was still
    there when it answered, no other acknowledgement of the command had looked it up, and the write succeeded.
  */
  lemma OneVoiceIff(
    trace: seq<Hub>, steps: seq<Step>, i: nat, j: nat, n: nat, t: nat, cmd: string, accepts: bool)
    requires Execution(trace, steps) && AnswersAt(trace, steps, i, j, t, cmd, accepts) && j < n < |trace|
    requires cmd in trace[i].clients && trace[i].clients[cmd].peer.Some?
    ensures OnlyVoice(trace[n], t, cmd) <==>
            cmd in trace[j].clients && OnlyAcker(trace[j], t, cmd) && !WriteFailed(trace[n], cmd)
  {
    hide Execution, WriteFailed, Voice;
    if OnlyVoice(trace[n], t, cmd) {
      OnlyVoiceMeans(trace, steps, i, j, n, t, cmd, accepts);
    }
    if cmd in trace[j].clients && OnlyAcker(trace[j], t, cmd) && !WriteFailed(trace[n], cmd) {
      forall u: nat | Voice(trace[n], u, cmd)
        ensures u == t
      {
        VoiceMeans(trace, steps, i, j, n, t, u, cmd, accepts);
      }
    }
  }

  /** In that case the log holds exactly one verdict of any thread for the command. */
  lemma OneVerdict(
    trace: seq<Hub>, steps: seq<Step>, i: nat, j: nat, n: nat, t: nat, cmd: string, accepts: bool) returns (k: nat)
    requires Execution(trace, steps) && AnswersAt(trace, steps, i, j, t, cmd, accepts) && j < n < |trace|
    requires cmd in trace[i].clients && trace[i].clients[cmd].peer.Some?
    requires cmd in trace[j].clients && OnlyAcker(trace[j], t, cmd) && !WriteFailed(trace[n], cmd)
    ensures k < |trace[n].told|
    ensures trace[n].told[k] ==
            Told(trace[i].clients[cmd].peer.value, cmd, if accepts then Accepted else Rejected, Some(t))
    ensures forall l :: 0 <= l < |trace[n].told| && trace[n].told[l].cmd == cmd && trace[n].told[l].teller.Some? ==>
              l == k
  {
    OneVoiceIff(trace, steps, i, j, n, t, cmd, accepts);
    AnswererIs(trace, steps, i, j, n, t, cmd, accepts);
    TraceOk(trace, steps, n);
    var h := trace[n];
    SaidIsTold(h, t);
    hide Execution, AnswersAt, HubOk, WaitersOk, Settled, PeerOf, Spoken;
    k :| 0 <= k < |h.told| && h.told[k].teller == Some(t);
    assert Reported(h.threads, h.told[k]);
    forall l | 0 <= l < |h.told| && h.told[l].cmd == cmd && h.told[l].teller.Some?
      ensures l == k
    {
      assert Reported(h.threads, h.told[l]);
      assert Voice(h, h.told[l].teller.value, cmd);
    }
  }

  // ---- When a rejection is told over a completed row ----

  /** Step `j` resolved the received row of the command: it took effect, whatever it reported. */
  ghost predicate CompletedAt(trace: seq<Hub>, steps: seq<Step>, j: nat, cmd: string) {
    && j < |steps| && j < |trace| && steps[j].Resolve? && TakesEffect(steps[j].result)
    && steps[j].t < |trace[j].threads| && trace[j].threads[steps[j].t].Acker?
    && trace[j].threads[steps[j].t].cmd == cmd && cmd in trace[j].rows && trace[j].rows[cmd] == Received
  }

  lemma CompletionStep(h: Hub, step: Step, cmd: string)
    requires Enabled(h, step)
    ensures Done(Next(h, step), cmd) <==>
            Done(h, cmd) || (step.Resolve? && TakesEffect(step.result) && h.threads[step.t].cmd == cmd &&
                             cmd in h.rows && h.rows[cmd] == Received)
  {
    StepEffect(h, step);
    hide Next;
  }

  /** A row is completed by a resolution that took effect and by nothing else. */
  lemma {:induction false} DoneIffCompleted(trace: seq<Hub>, steps: seq<Step>, n: nat, cmd: string)
    requires Execution(trace, steps) && n < |trace|
    ensures Done(trace[n], cmd) <==> exists j :: 0 <= j < n && CompletedAt(trace, steps, j, cmd)
    decreases n
  {
    hide Next, Done;
    if n > 0 {
      DoneIffCompleted(trace, steps, n - 1, cmd);
      CompletionStep(trace[n - 1], steps[n - 1], cmd);
      assert Done(trace[n], cmd) <==> Done(trace[n - 1], cmd) || CompletedAt(trace, steps, n - 1, cmd);
    } else {
      NothingDone(cmd);
    }
  }

  lemma NothingDone(cmd: string)
    ensures !Done(Empty(), cmd)
  {
  }

  /** No row is completed twice. */
  lemma CompletedOnce(trace: seq<Hub>, steps: seq<Step>, i: nat, j: nat, cmd: string)
    requires Execution(trace, steps) && CompletedAt(trace, steps, i, cmd) && CompletedAt(trace, steps, j, cmd)
    ensures i == j
  {
    hide Next;
    DoneIffCompleted(trace, steps, i, cmd);
    DoneIffCompleted(trace, steps, j, cmd);
  }

  /** Thread `t` is a terminal rejection and completed the row that it rejects. */
  ghost predicate RejectedTerminally(trace: seq<Hub>, steps: seq<Step>, n: nat, t: nat, cmd: string) {
    exists j :: 0 <= j < n && CompletedAt(trace, steps, j, cmd) && steps[j].t == t &&
      steps[j].result.Answered? && !trace[j].threads[t].accepts
  }

  /** The resolution of thread `t` completed the row and reported an error. */
  ghost predicate AnswerLost(trace: seq<Hub>, steps: seq<Step>, n: nat, t: nat, cmd: string) {
    exists j :: 0 <= j < n && CompletedAt(trace, steps, j, cmd) && steps[j].t == t && steps[j].result.Failed?
  }

  ghost predicate CompletedByAnother(
    trace: seq<Hub>, steps: seq<Step>, n: nat, teller: Option<nat>, cmd: string) {
    exists j :: 0 <= j < n && CompletedAt(trace, steps, j, cmd) && teller != Some(steps[j].t)
  }

  /** An acknowledgement that completed its row, accepts and was told so does not reject. */
  lemma AcceptingIsNotRejecting(trace: seq<Hub>, steps: seq<Step>, n: nat, k: nat, j: nat)
    requires Execution(trace, steps) && j < n < |trace| && k < |trace[n].told| && trace[n].told[k].verdict == Rejected
    requires CompletedAt(trace, steps, j, trace[n].told[k].cmd) && trace[n].told[k].teller == Some(steps[j].t)
    requires steps[j].result.Answered?
    ensures !trace[j].threads[steps[j].t].accepts
  {
    TraceOk(trace, steps, n);
    assert Reported(trace[n].threads, trace[n].told[k]);
    StepEffect(trace[j], steps[j]);
    ThreadLater(trace, steps, j + 1, n, steps[j].t);
    hide Next, LogOk, WaitersOk, HubOk, RowsMoved;
  }

  /**
    A rejection of a command stands over a row that is completed, if and only if it is a terminal rejection, which
    completes the row itself, or its own resolution took effect though it reported an error, or the resolution of
    another acknowledgement took effect. A send that was refused at once has no resolution of its own.
  */
  lemma RejectedOverCompletedIff(trace: seq<Hub>, steps: seq<Step>, n: nat, k: nat)
    requires Execution(trace, steps) && n < |trace| && k < |trace[n].told| && trace[n].told[k].verdict == Rejected
    ensures var cmd, teller := trace[n].told[k].cmd, trace[n].told[k].teller;
            Done(trace[n], cmd) <==>
            || CompletedByAnother(trace, steps, n, teller, cmd)
            || (teller.Some? && RejectedTerminally(trace, steps, n, teller.value, cmd))
            || (teller.Some? && AnswerLost(trace, steps, n, teller.value, cmd))
  {
    var cmd, teller := trace[n].told[k].cmd, trace[n].told[k].teller;
    DoneIffCompleted(trace, steps, n, cmd);
    hide Execution, Done, CompletedAt;
    if j :| 0 <= j < n && CompletedAt(trace, steps, j, cmd) {
      if teller == Some(steps[j].t) && steps[j].result.Answered? {
        AcceptingIsNotRejecting(trace, steps, n, k, j);
      }
    }
  }

  /** An acknowledgement that shares its command with a taker looked the waiter up before it was taken. */
  lemma AckedBeforeTaken(trace: seq<Hub>, steps: seq<Step>, n: nat, t: nat, u: nat)
    requires Execution(trace, steps) && n < |trace| && t < |trace[n].threads| && u < |trace[n].threads|
    requires trace[n].threads[t].Taker? && trace[n].threads[u].Acker?
    requires trace[n].threads[t].cmd == trace[n].threads[u].cmd
    ensures u < t
  {
    hide Next, PeerOf, Spoken;
    var k := Started(trace, steps, n, t);
    var l := Started(trace, steps, n, u);
    if k < l {
      OutAfter(trace, steps, k, l, trace[n].threads[u].cmd);
    } else {
      StartedBy(trace, steps, l, u);
      ThreadLater(trace, steps, l + 1, k, u);
    }
  }

  /** For a timeout or a disconnect that is an acknowledgement it raced: one that started before it took the waiter. */
  lemma TakerRejectsCompletedIff(trace: seq<Hub>, steps: seq<Step>, n: nat, t: nat)
    requires Execution(trace, steps) && n < |trace| && t < |trace[n].threads| && trace[n].threads[t].Taker?
    ensures var cmd := trace[n].threads[t].cmd;
            Done(trace[n], cmd) <==>
            exists j :: 0 <= j < n && CompletedAt(trace, steps, j, cmd) && steps[j].t < t
  {
    var cmd := trace[n].threads[t].cmd;
    DoneIffCompleted(trace, steps, n, cmd);
    hide Next, Enabled, PeerOf, Spoken, Done;
    if j :| 0 <= j < n && CompletedAt(trace, steps, j, cmd) {
      ThreadLater(trace, steps, j, n, steps[j].t);
      AckedBeforeTaken(trace, steps, n, t, steps[j].t);
    }
  }

  // ---- Each of these happens ----

  lemma Extend(trace: seq<Hub>, steps: seq<Step>, step: Step)
    requires Execution(trace, steps) && Enabled(trace[|steps|], step)
    ensures Execution(trace + [Next(trace[|steps|], step)], steps + [step])
  {
    hide Next, Enabled;
  }

  lemma RunTo(trace: seq<Hub>, steps: seq<Step>, step: Step, after: Hub) returns (longer: seq<Hub>, taken: seq<Step>)
    requires Execution(trace, steps) && Enabled(trace[|steps|], step) && Next(trace[|steps|], step) == after
    ensures Execution(longer, taken) && longer[|taken|] == after && taken == steps + [step]
  {
    Extend(trace, steps, step);
    longer, taken := trace + [after], steps + [step];
  }

  /** The Hub once the command was written for the peer. */
  function DeliveredHub(cmd: string, w: Waiter): Hub {
    Hub(map[cmd := Received], map[cmd := w], {}, [Deliverer(cmd, w, Delivered)], map[cmd := 0], [cmd], [])
  }

  lemma DeliveredRun(cmd: string, peer: nat, adapter: nat) returns (trace: seq<Hub>, steps: seq<Step>)
    ensures Execution(trace, steps) && trace[|steps|] == DeliveredHub(cmd, Waiter(adapter, Some(peer)))
    ensures forall k :: 0 <= k < |steps| ==> !steps[k].Take?
  {
    var w := Waiter(adapter, Some(peer));
    trace, steps := [Empty()], [];
    var h := Hub(map[cmd := Pending], map[], {}, [Deliverer(cmd, w, Claiming)], map[], [], []);
    trace, steps := RunTo(trace, steps, Send(cmd, peer, adapter), h);
    h := Hub(map[cmd := Received], map[], {}, [Deliverer(cmd, w, Claimed)], map[cmd := 0], [], []);
    trace, steps := RunTo(trace, steps, Claim(0, Answered, false), h);
    h := Hub(map[cmd := Received], map[cmd := w], {}, [Deliverer(cmd, w, Registered)], map[cmd := 0], [], []);
    trace, steps := RunTo(trace, steps, Register(0), h);
    trace, steps := RunTo(trace, steps, Write(0, Answered, false), DeliveredHub(cmd, w));
  }

  /** The Hub once the acknowledgement completed the row, before it answers. */
  function ResolvedHub(cmd: string, w: Waiter): Hub {
    var threads := [Deliverer(cmd, w, Delivered), Acker(cmd, w, true, true, false)];
    Hub(map[cmd := Completed], map[cmd := w], {}, threads, map[cmd := 0], [cmd], [])
  }

  lemma ResolvedRun(cmd: string, peer: nat, adapter: nat) returns (trace: seq<Hub>, steps: seq<Step>)
    ensures Execution(trace, steps) && trace[|steps|] == ResolvedHub(cmd, Waiter(adapter, Some(peer)))
    ensures forall k :: 0 <= k < |steps| ==> !steps[k].Take?
  {
    var w := Waiter(adapter, Some(peer));
    trace, steps := DeliveredRun(cmd, peer, adapter);
    var h := DeliveredHub(cmd, w);
    h := h.(threads := h.threads + [Acker(cmd, w, true, false, false)]);
    trace, steps := RunTo(trace, steps, StartAck(cmd, true), h);
    trace, steps := RunTo(trace, steps, Resolve(1, Answered, false), ResolvedHub(cmd, w));
  }

  /**
    A rejection says nothing about the row: when the timeout takes the waiter after the acknowledgement
    resolved the row and before it answers, the same peer is told rejected and then accepted.
  */
  lemma TimeoutRacesAcknowledgement(cmd: string, peer: nat, adapter: nat) returns (trace: seq<Hub>, steps: seq<Step>)
    ensures Execution(trace, steps) && Done(trace[|steps|], cmd)
    ensures trace[|steps|].told == [Told(peer, cmd, Rejected, Some(2)), Told(peer, cmd, Accepted, Some(1))]
  {
    var w := Waiter(adapter, Some(peer));
    trace, steps := ResolvedRun(cmd, peer, adapter);
    var d, a := Deliverer(cmd, w, Delivered), Acker(cmd, w, true, true, false);
    var h := Hub(map[cmd := Completed], map[], {}, [d, a, Taker(cmd, Some(peer), false)], map[cmd := 0], [cmd], []);
    trace, steps := RunTo(trace, steps, Take(cmd), h);
    h := h.(threads := [d, a, Taker(cmd, Some(peer), true)], told := [Told(peer, cmd, Rejected, Some(2))]);
    trace, steps := RunTo(trace, steps, FinishTake(2, true), h);
    h := h.(threads := [d, a.(answered := true), Taker(cmd, Some(peer), true)], accepted := {cmd},
            told := [Told(peer, cmd, Rejected, Some(2)), Told(peer, cmd, Accepted, Some(1))]);
    trace, steps := RunTo(trace, steps, FinishAck(1), h);
  }

  /** A terminal rejection completes the row it rejects. */
  lemma TerminalRejectionCompletes(cmd: string, peer: nat, adapter: nat) returns (trace: seq<Hub>, steps: seq<Step>)
    ensures Execution(trace, steps) && Done(trace[|steps|], cmd)
    ensures trace[|steps|].told == [Told(peer, cmd, Rejected, Some(1))]
  {
    var w := Waiter(adapter, Some(peer));
    trace, steps := DeliveredRun(cmd, peer, adapter);
    var d, a := Deliverer(cmd, w, Delivered), Acker(cmd, w, false, false, false);
    var h := DeliveredHub(cmd, w).(threads := [d, a]);
    trace, steps := RunTo(trace, steps, StartAck(cmd, false), h);
    h := h.(rows := map[cmd := Completed], threads := [d, a.(resolved := true)]);
    trace, steps := RunTo(trace, steps, Resolve(1, Answered, false), h);
    h := h.(clients := map[], threads := [d, a.(resolved := true, answered := true)],
            told := [Told(peer, cmd, Rejected, Some(1))]);
    trace, steps := RunTo(trace, steps, FinishAck(1), h);
  }

  /** A second acknowledgement that looked the waiter up in time contradicts the first; nobody took the waiter. */
  lemma StrayAcknowledgementRejects(cmd: string, peer: nat, adapter: nat) returns (trace: seq<Hub>, steps: seq<Step>)
    ensures Execution(trace, steps) && forall k :: 0 <= k < |steps| ==> !steps[k].Take?
    ensures trace[|steps|].told == [Told(peer, cmd, Accepted, Some(1)), Told(peer, cmd, Rejected, Some(2))]
  {
    var w := Waiter(adapter, Some(peer));
    trace, steps := ResolvedRun(cmd, peer, adapter);
    var d, a, b := Deliverer(cmd, w, Delivered), Acker(cmd, w, true, true, false), Acker(cmd, w, true, false, false);
    var h := ResolvedHub(cmd, w).(threads := [d, a, b]);
    trace, steps := RunTo(trace, steps, StartAck(cmd, true), h);
    var first := Told(peer, cmd, Accepted, Some(1));
    h := h.(clients := map[], accepted := {cmd}, threads := [d, a.(answered := true), b], told := [first]);
    trace, steps := RunTo(trace, steps, FinishAck(1), h);
    h := h.(threads := [d, a.(answered := true), b.(answered := true)],
            told := [first, Told(peer, cmd, Rejected, Some(2))]);
    trace, steps := RunTo(trace, steps, Resolve(2, Failed(false), false), h);
  }

  /** The resolution completed the row and reported an error: the peer is told rejected, and no other thread spoke. */
  lemma LostAnswerRejectsCompleted(cmd: string, peer: nat, adapter: nat, gone: bool)
    returns (trace: seq<Hub>, steps: seq<Step>)
    ensures Execution(trace, steps) && Done(trace[|steps|], cmd)
    ensures trace[|steps|].told == [Told(peer, cmd, Rejected, Some(1))]
    ensures |trace[|steps|].threads| == 2 && trace[|steps|].threads[1].Acker? && trace[|steps|].threads[1].accepts
  {
    var w := Waiter(adapter, Some(peer));
    trace, steps := DeliveredRun(cmd, peer, adapter);
    var d, a := Deliverer(cmd, w, Delivered), Acker(cmd, w, true, false, false);
    var h := DeliveredHub(cmd, w).(threads := [d, a]);
    trace, steps := RunTo(trace, steps, StartAck(cmd, true), h);
    h := h.(rows := map[cmd := Completed], clients := map[], threads := [d, a.(answered := true)],
            told := [Told(peer, cmd, Rejected, Some(1))]);
    trace, steps := RunTo(trace, steps, Resolve(1, Failed(true), gone), h);
  }

  /** The Hub once a redelivery wrote the command of a refused send. */
  function RedeliveredHub(cmd: string, w: Waiter, told: Told): Hub {
    DeliveredHub(cmd, w).(told := [told])
  }

  lemma RedeliveredRun(cmd: string, peer: nat, adapter: nat) returns (trace: seq<Hub>, steps: seq<Step>)
    ensures Execution(trace, steps)
    ensures trace[|steps|] == RedeliveredHub(cmd, Waiter(adapter, None), Told(peer, cmd, Rejected, None))
  {
    var w, told := Waiter(adapter, None), Told(peer, cmd, Rejected, None);
    trace, steps := [Empty()], [];
    var h := Hub(map[cmd := Pending], map[], {}, [], map[], [], [told]);
    trace, steps := RunTo(trace, steps, Refuse(cmd, peer, true), h);
    h := h.(threads := [Deliverer(cmd, w, Claiming)]);
    trace, steps := RunTo(trace, steps, Redeliver(cmd, adapter), h);
    h := h.(rows := map[cmd := Received], threads := [Deliverer(cmd, w, Claimed)], claimant := map[cmd := 0]);
    trace, steps := RunTo(trace, steps, Claim(0, Answered, false), h);
    h := h.(clients := map[cmd := w], threads := [Deliverer(cmd, w, Registered)]);
    trace, steps := RunTo(trace, steps, Register(0), h);
    trace, steps := RunTo(trace, steps, Write(0, Answered, false), RedeliveredHub(cmd, w, told));
  }

  /** A refused send whose commit had stored the row: a redelivery completes it later. */
  lemma RefusedSendCompletes(cmd: string, peer: nat, adapter: nat) returns (trace: seq<Hub>, steps: seq<Step>)
    ensures Execution(trace, steps) && Done(trace[|steps|], cmd)
    ensures trace[|steps|].told == [Told(peer, cmd, Rejected, None)]
  {
    var w, told := Waiter(adapter, None), Told(peer, cmd, Rejected, None);
    trace, steps := RedeliveredRun(cmd, peer, adapter);
    var d, a := Deliverer(cmd, w, Delivered), Acker(cmd, w, true, false, false);
    var h := RedeliveredHub(cmd, w, told).(threads := [d, a]);
    trace, steps := RunTo(trace, steps, StartAck(cmd, true), h);
    h := h.(rows := map[cmd := Completed], threads := [d, a.(resolved := true)]);
    trace, steps := RunTo(trace, steps, Resolve(1, Answered, false), h);
  }
}
