/**
  Durable command delivery: a send commits a ledger row, claims it, and writes the command to the
  adapter; after a reconnect the rows still listed are claimed and written again. Acknowledgements,
  timeouts and disconnects race with both. Each ledger call, map update and write is one step of its
  own thread.

  Ledger contract: a commit adds a pending row once, a claim moves a pending row to received and says so
  to one caller only, and a completed or outcome-unknown row is final. Any ledger call and any write may
  also fail, before or after it took effect.
*/
module CommandLedger {
  import opened Wrappers

  datatype Row = Pending | Received | Completed | OutcomeUnknown

  /** Who waits for the adapter's acknowledgement; a redelivery has no peer to tell. */
  datatype Waiter = Waiter(adapter: nat, peer: Option<nat>)

  datatype Verdict = Accepted | Rejected | Duplicate

  /** `teller` is the thread that told it, history; a send that is answered at once runs no thread. */
  datatype Told = Told(peer: nat, cmd: string, verdict: Verdict, teller: Option<nat>)

  /** A send or redelivery on its way to writing the command, or past it: written, or without effect. */
  datatype Stage = Claiming | Claimed | Registered | Delivered | GaveUp

  datatype Thread =
    | Deliverer(cmd: string, waiter: Waiter, stage: Stage)
    | Acker(cmd: string, client: Waiter, accepts: bool, resolved: bool, answered: bool)
    | Taker(cmd: string, peer: Option<nat>, finished: bool)

  /**
    `claimant` is the thread whose claim moved the row, `written` the commands written to adapters in
    order; both are history. `accepted` is the cache of accepted command IDs.
  */
  datatype Hub = Hub(
    rows: map<string, Row>, clients: map<string, Waiter>, accepted: set<string>, threads: seq<Thread>,
    claimant: map<string, nat>, written: seq<string>, told: seq<Told>)

  /** A call may report an error before or after it took effect. */
  datatype CallResult = Answered | Failed(effective: bool)

  predicate TakesEffect(result: CallResult) {
    result != Failed(false)
  }

  /** `gone` in a step says whether resolving the row as outcome-unknown, where the code tries to, took effect. */
  datatype Step =
    | Refuse(cmd: string, peer: nat, stored: bool)
    | Send(cmd: string, peer: nat, adapter: nat)
    | Redeliver(cmd: string, adapter: nat)
    | Claim(t: nat, result: CallResult, gone: bool)
    | SkipMalformed(t: nat, gone: bool)
    | Register(t: nat)
    | Write(t: nat, result: CallResult, gone: bool)
    | StartAck(cmd: string, accepts: bool)
    | Resolve(t: nat, result: CallResult, gone: bool)
    | FinishAck(t: nat)
    | Take(cmd: string)
    | FinishTake(t: nat, gone: bool)

  // ---- Ledger calls ----

  /** The row a claim leaves; only a pending row is claimed. */
  function ClaimRow(row: Row): Row {
    if row == Pending then Received else row
  }

  function Unknown(row: Row): Row {
    if row == Pending || row == Received then OutcomeUnknown else row
  }

  /** A resolution as completed is refused on any row that is not received or already completed. */
  predicate CanComplete(row: Row) {
    row == Received || row == Completed
  }

  function GiveUp(h: Hub, cmd: string, gone: bool): Hub {
    if cmd in h.rows && gone then h.(rows := h.rows[cmd := Unknown(h.rows[cmd])]) else h
  }

  function Tell(h: Hub, peer: Option<nat>, cmd: string, verdict: Verdict, teller: Option<nat>): Hub {
    if peer.None? then h else h.(told := h.told + [Told(peer.value, cmd, verdict, teller)])
  }

  function SetThread(h: Hub, t: nat, thread: Thread): Hub
    requires t < |h.threads|
  {
    h.(threads := h.threads[t := thread])
  }

  // ---- Steps ----

  predicate AtStage(h: Hub, t: nat, stage: Stage) {
    t < |h.threads| && h.threads[t].Deliverer? && h.threads[t].stage == stage && h.threads[t].cmd in h.rows
  }

  predicate Acking(h: Hub, t: nat, resolved: bool) {
    t < |h.threads| && h.threads[t].Acker? && h.threads[t].resolved == resolved && !h.threads[t].answered
  }

  predicate Taking(h: Hub, t: nat) {
    t < |h.threads| && h.threads[t].Taker? && !h.threads[t].finished
  }

  predicate Enabled(h: Hub, step: Step) {
    match step
    case Refuse(_, _, _) => true
    case Send(_, _, _) => true
    case Redeliver(cmd, _) => cmd in h.rows
    case Claim(t, _, _) => AtStage(h, t, Claiming)
    case SkipMalformed(t, _) => AtStage(h, t, Claimed) && h.threads[t].waiter.peer.None?
    case Register(t) => AtStage(h, t, Claimed)
    case Write(t, _, _) => AtStage(h, t, Registered)
    case StartAck(cmd, _) => cmd in h.clients
    case Resolve(t, _, _) => Acking(h, t, false)
    case FinishAck(t) => Acking(h, t, true)
    case Take(cmd) => cmd in h.clients
    case FinishTake(t, _) => Taking(h, t)
  }

  /** A refused send; `stored` when its commit failed after the row was stored. */
  function RefuseNext(h: Hub, cmd: string, peer: nat, stored: bool): Hub {
    var h := if stored && cmd !in h.rows then h.(rows := h.rows[cmd := Pending]) else h;
    Tell(h, Some(peer), cmd, Rejected, None)
  }

  function SendNext(h: Hub, cmd: string, peer: nat, adapter: nat): Hub {
    if cmd in h.accepted || cmd in h.rows then Tell(h, Some(peer), cmd, Duplicate, None)
    else
      var thread := Deliverer(cmd, Waiter(adapter, Some(peer)), Claiming);
      h.(rows := h.rows[cmd := Pending], threads := h.threads + [thread])
  }

  /**
    Without the claim the thread ends. A send then resolves the row as unknown and tells its peer; a
    redelivery resolves only a row that an earlier connection had received.
  */
  function ClaimNext(h: Hub, t: nat, result: CallResult, gone: bool): Hub
    requires AtStage(h, t, Claiming)
  {
    var thread := h.threads[t];
    var row := h.rows[thread.cmd];
    if row == Pending && result.Answered? then
      var h := SetThread(h, t, thread.(stage := Claimed));
      h.(rows := h.rows[thread.cmd := Received], claimant := h.claimant[thread.cmd := t])
    else
      var moved := if TakesEffect(result) then ClaimRow(row) else row;
      var h := SetThread(h, t, thread.(stage := GaveUp)).(rows := h.rows[thread.cmd := moved]);
      var tries := thread.waiter.peer.Some? || (result.Answered? && row == Received);
      Tell(GiveUp(h, thread.cmd, tries && gone), thread.waiter.peer, thread.cmd, Rejected, Some(t))
  }

  /** A write that reports an error may have reached the adapter all the same. */
  function WriteNext(h: Hub, t: nat, result: CallResult, gone: bool): Hub
    requires AtStage(h, t, Registered)
  {
    var thread := h.threads[t];
    var h := if TakesEffect(result) then h.(written := h.written + [thread.cmd]) else h;
    if result.Answered? then SetThread(h, t, thread.(stage := Delivered))
    else
      var h := SetThread(h, t, thread.(stage := GaveUp)).(clients := h.clients - {thread.cmd});
      Tell(GiveUp(h, thread.cmd, gone), thread.waiter.peer, thread.cmd, Rejected, Some(t))
  }

  /**
    `accepts` is false for a terminal rejection, which completes the row as well. A resolution that reports an
    error is answered as a failed delivery, whether or not it completed the row.
  */
  function ResolveNext(h: Hub, t: nat, result: CallResult, gone: bool): Hub
    requires Acking(h, t, false)
  {
    var thread := h.threads[t];
    var allowed := thread.cmd in h.rows && CanComplete(h.rows[thread.cmd]);
    var h := if allowed && TakesEffect(result) then h.(rows := h.rows[thread.cmd := Completed]) else h;
    if allowed && result.Answered? then SetThread(h, t, thread.(resolved := true))
    else
      var h := SetThread(h, t, thread.(answered := true)).(clients := h.clients - {thread.cmd});
      Tell(GiveUp(h, thread.cmd, gone), thread.client.peer, thread.cmd, Rejected, Some(t))
  }

  function FinishAckNext(h: Hub, t: nat): Hub
    requires Acking(h, t, true)
  {
    var thread := h.threads[t];
    var h := SetThread(h, t, thread.(answered := true)).(clients := h.clients - {thread.cmd});
    if thread.accepts then
      Tell(h.(accepted := h.accepted + {thread.cmd}), thread.client.peer, thread.cmd, Accepted, Some(t))
    else Tell(h, thread.client.peer, thread.cmd, Rejected, Some(t))
  }

  function FinishTakeNext(h: Hub, t: nat, gone: bool): Hub
    requires Taking(h, t)
  {
    var thread := h.threads[t];
    var h := SetThread(h, t, thread.(finished := true));
    Tell(GiveUp(h, thread.cmd, gone), thread.peer, thread.cmd, Rejected, Some(t))
  }

  function Next(h: Hub, step: Step): Hub
    requires Enabled(h, step)
  {
    match step
    case Refuse(cmd, peer, stored) => RefuseNext(h, cmd, peer, stored)
    case Send(cmd, peer, adapter) => SendNext(h, cmd, peer, adapter)
    case Redeliver(cmd, adapter) => h.(threads := h.threads + [Deliverer(cmd, Waiter(adapter, None), Claiming)])
    case Claim(t, result, gone) => ClaimNext(h, t, result, gone)
    case SkipMalformed(t, gone) => GiveUp(SetThread(h, t, h.threads[t].(stage := GaveUp)), h.threads[t].cmd, gone)
    case Register(t) =>
      var thread := h.threads[t];
      SetThread(h, t, thread.(stage := Registered)).(clients := h.clients[thread.cmd := thread.waiter])
    case Write(t, result, gone) => WriteNext(h, t, result, gone)
    case StartAck(cmd, accepts) => h.(threads := h.threads + [Acker(cmd, h.clients[cmd], accepts, false, false)])
    case Resolve(t, result, gone) => ResolveNext(h, t, result, gone)
    case FinishAck(t) => FinishAckNext(h, t)
    case Take(cmd) => h.(clients := h.clients - {cmd}, threads := h.threads + [Taker(cmd, h.clients[cmd].peer, false)])
    case FinishTake(t, gone) => FinishTakeNext(h, t, gone)
  }

  function Empty(): Hub {
    Hub(map[], map[], {}, [], map[], [], [])
  }

  ghost predicate Execution(trace: seq<Hub>, steps: seq<Step>) {
    && |trace| == |steps| + 1 && trace[0] == Empty()
    && forall i :: 0 <= i < |steps| ==> Enabled(trace[i], steps[i]) && trace[i + 1] == Next(trace[i], steps[i])
  }

  // ---- What a step changes ----

  predicate Done(h: Hub, cmd: string) {
    cmd in h.rows && h.rows[cmd] == Completed
  }

  /** The thread that a step moves, if any. */
  function Moves(step: Step): Option<nat> {
    match step
    case Refuse(_, _, _) => None
    case Send(_, _, _) => None
    case Redeliver(_, _) => None
    case Claim(t, _, _) => Some(t)
    case SkipMalformed(t, _) => Some(t)
    case Register(t) => Some(t)
    case Write(t, _, _) => Some(t)
    case StartAck(_, _) => None
    case Resolve(t, _, _) => Some(t)
    case FinishAck(t) => Some(t)
    case Take(_) => None
    case FinishTake(t, _) => Some(t)
  }

  /** Rows are final once completed or unknown, and never go back to pending. */
  ghost predicate RowsKept(before: map<string, Row>, after: map<string, Row>) {
    forall cmd :: cmd in before ==>
      && cmd in after
      && (before[cmd] == Completed || before[cmd] == OutcomeUnknown ==> after[cmd] == before[cmd])
      && (before[cmd] != Pending ==> after[cmd] != Pending)
  }

  ghost predicate NoneCompleted(before: map<string, Row>, after: map<string, Row>) {
    forall cmd :: cmd in after && after[cmd] == Completed ==> cmd in before && before[cmd] == Completed
  }

  /** What the thread of a finished step tells its waiter, if that has a peer. */
  function Said(peer: Option<nat>, cmd: string, verdict: Verdict, t: nat): seq<Told> {
    if peer.None? then [] else [Told(peer.value, cmd, verdict, Some(t))]
  }

  /** Rows moved only as the ledger allows, and none became completed. */
  ghost predicate RowsMoved(before: map<string, Row>, after: map<string, Row>) {
    RowsKept(before, after) && NoneCompleted(before, after)
  }

  predicate Claims(h: Hub, step: Step)
    requires Enabled(h, step) && step.Claim?
  {
    h.rows[h.threads[step.t].cmd] == Pending && step.result.Answered?
  }

  predicate Completes(h: Hub, step: Step)
    requires Enabled(h, step) && step.Resolve?
  {
    h.threads[step.t].cmd in h.rows && CanComplete(h.rows[h.threads[step.t].cmd]) && TakesEffect(step.result)
  }

  /** Everything a step does but the exact rows that giving up on a command leaves. */
  ghost predicate Effect(h: Hub, step: Step, h': Hub)
    requires Enabled(h, step)
  {
    match step
    case Refuse(cmd, peer, _) =>
      && h' == h.(rows := h'.rows, told := h.told + [Told(peer, cmd, Rejected, None)])
      && RowsMoved(h.rows, h'.rows)
    case Send(cmd, peer, adapter) =>
      if cmd in h.accepted || cmd in h.rows then h' == h.(told := h.told + [Told(peer, cmd, Duplicate, None)])
      else
        var thread := Deliverer(cmd, Waiter(adapter, Some(peer)), Claiming);
        h' == h.(rows := h.rows[cmd := Pending], threads := h.threads + [thread])
    case Redeliver(cmd, adapter) => h' == h.(threads := h.threads + [Deliverer(cmd, Waiter(adapter, None), Claiming)])
    case Claim(t, _, _) =>
      var thread := h.threads[t];
      if Claims(h, step) then
        h' == h.(rows := h.rows[thread.cmd := Received], threads := h.threads[t := thread.(stage := Claimed)],
                 claimant := h.claimant[thread.cmd := t])
      else
        && h' == h.(rows := h'.rows, threads := h.threads[t := thread.(stage := GaveUp)],
                    told := h.told + Said(thread.waiter.peer, thread.cmd, Rejected, t))
        && RowsMoved(h.rows, h'.rows)
    case SkipMalformed(t, _) =>
      && h' == h.(rows := h'.rows, threads := h.threads[t := h.threads[t].(stage := GaveUp)])
      && RowsMoved(h.rows, h'.rows)
    case Register(t) =>
      var thread := h.threads[t];
      h' == h.(threads := h.threads[t := thread.(stage := Registered)],
               clients := h.clients[thread.cmd := thread.waiter])
    case Write(t, result, _) =>
      var thread := h.threads[t];
      var written := if TakesEffect(result) then h.written + [thread.cmd] else h.written;
      if result.Answered? then
        h' == h.(threads := h.threads[t := thread.(stage := Delivered)], written := written)
      else
        && h' == h.(rows := h'.rows, threads := h.threads[t := thread.(stage := GaveUp)],
                    clients := h.clients - {thread.cmd}, written := written,
                    told := h.told + Said(thread.waiter.peer, thread.cmd, Rejected, t))
        && RowsMoved(h.rows, h'.rows)
    case StartAck(cmd, accepts) =>
      h' == h.(threads := h.threads + [Acker(cmd, h.clients[cmd], accepts, false, false)])
    case Resolve(t, result, _) =>
      var thread := h.threads[t];
      && (if Completes(h, step) && result.Answered? then
            h' == h.(rows := h'.rows, threads := h.threads[t := thread.(resolved := true)])
          else
            h' == h.(rows := h'.rows, threads := h.threads[t := thread.(answered := true)],
                     clients := h.clients - {thread.cmd},
                     told := h.told + Said(thread.client.peer, thread.cmd, Rejected, t)))
      && (if Completes(h, step) then h'.rows == h.rows[thread.cmd := Completed] else RowsMoved(h.rows, h'.rows))
    case FinishAck(t) =>
      var thread := h.threads[t];
      var verdict := if thread.accepts then Accepted else Rejected;
      h' == h.(threads := h.threads[t := thread.(answered := true)], clients := h.clients - {thread.cmd},
               accepted := if thread.accepts then h.accepted + {thread.cmd} else h.accepted,
               told := h.told + Said(thread.client.peer, thread.cmd, verdict, t))
    case Take(cmd) =>
      h' == h.(clients := h.clients - {cmd}, threads := h.threads + [Taker(cmd, h.clients[cmd].peer, false)])
    case FinishTake(t, _) =>
      var thread := h.threads[t];
      && h' == h.(rows := h'.rows, threads := h.threads[t := thread.(finished := true)],
                  told := h.told + Said(thread.peer, thread.cmd, Rejected, t))
      && RowsMoved(h.rows, h'.rows)
  }

  lemma GivesUp(h: Hub, cmd: string, gone: bool)
    ensures GiveUp(h, cmd, gone) == h.(rows := GiveUp(h, cmd, gone).rows)
    ensures RowsMoved(h.rows, GiveUp(h, cmd, gone).rows)
  {
  }

  lemma Tells(h: Hub, peer: Option<nat>, cmd: string, verdict: Verdict, t: nat)
    ensures Tell(h, peer, cmd, verdict, Some(t)) == h.(told := h.told + Said(peer, cmd, verdict, t))
  {
    assert h.told + [] == h.told;
  }

  lemma ClaimEffect(h: Hub, step: Step)
    requires Enabled(h, step) && step.Claim?
    ensures Effect(h, step, Next(h, step))
  {
    var Claim(t, result, gone) := step;
    var thread := h.threads[t];
    if !Claims(h, step) {
      var row := h.rows[thread.cmd];
      var moved := if TakesEffect(result) then ClaimRow(row) else row;
      var h1 := SetThread(h, t, thread.(stage := GaveUp)).(rows := h.rows[thread.cmd := moved]);
      var tries := thread.waiter.peer.Some? || (result.Answered? && row == Received);
      GivesUp(h1, thread.cmd, tries && gone);
      Tells(GiveUp(h1, thread.cmd, tries && gone), thread.waiter.peer, thread.cmd, Rejected, t);
      assert RowsMoved(h.rows, h1.rows);
    }
    hide GiveUp, Tell, Said;
  }

  lemma WriteEffect(h: Hub, step: Step)
    requires Enabled(h, step) && step.Write?
    ensures Effect(h, step, Next(h, step))
  {
    var Write(t, result, gone) := step;
    var thread := h.threads[t];
    var h0 := if TakesEffect(result) then h.(written := h.written + [thread.cmd]) else h;
    var h1 := SetThread(h0, t, thread.(stage := GaveUp)).(clients := h.clients - {thread.cmd});
    GivesUp(h1, thread.cmd, gone);
    Tells(GiveUp(h1, thread.cmd, gone), thread.waiter.peer, thread.cmd, Rejected, t);
    hide GiveUp, Tell, Said, RowsMoved;
  }

  lemma ResolveEffect(h: Hub, step: Step)
    requires Enabled(h, step) && step.Resolve?
    ensures Effect(h, step, Next(h, step))
  {
    var Resolve(t, result, gone) := step;
    var thread := h.threads[t];
    var h0 := if Completes(h, step) then h.(rows := h.rows[thread.cmd := Completed]) else h;
    var h1 := SetThread(h0, t, thread.(answered := true)).(clients := h.clients - {thread.cmd});
    GivesUp(h1, thread.cmd, gone);
    if Completes(h, step) {
      assert h1.rows[thread.cmd := Completed] == h1.rows;
    }
    Tells(GiveUp(h1, thread.cmd, gone), thread.client.peer, thread.cmd, Rejected, t);
    hide Tell, Said, RowsMoved;
  }

  lemma FinishAckEffect(h: Hub, step: Step)
    requires Enabled(h, step) && step.FinishAck?
    ensures Effect(h, step, Next(h, step))
  {
    var thread := h.threads[step.t];
    var h1 := SetThread(h, step.t, thread.(answered := true)).(clients := h.clients - {thread.cmd});
    Tells(h1.(accepted := h1.accepted + {thread.cmd}), thread.client.peer, thread.cmd, Accepted, step.t);
    Tells(h1, thread.client.peer, thread.cmd, Rejected, step.t);
    hide Tell, Said;
  }

  lemma FinishTakeEffect(h: Hub, step: Step)
    requires Enabled(h, step) && step.FinishTake?
    ensures Effect(h, step, Next(h, step))
  {
    var thread := h.threads[step.t];
    var h1 := SetThread(h, step.t, thread.(finished := true));
    GivesUp(h1, thread.cmd, step.gone);
    Tells(GiveUp(h1, thread.cmd, step.gone), thread.peer, thread.cmd, Rejected, step.t);
    hide GiveUp, Tell, Said, RowsMoved;
  }

  lemma SkipEffect(h: Hub, step: Step)
    requires Enabled(h, step) && step.SkipMalformed?
    ensures Effect(h, step, Next(h, step))
  {
    var thread := h.threads[step.t];
    GivesUp(SetThread(h, step.t, thread.(stage := GaveUp)), thread.cmd, step.gone);
    hide GiveUp, RowsMoved;
  }

  lemma StepEffect(h: Hub, step: Step)
    requires Enabled(h, step)
    ensures Effect(h, step, Next(h, step))
  {
    match step
    case Refuse(_, _, _) =>
    case Send(_, _, _) =>
    case Redeliver(_, _) =>
    case Claim(_, _, _) => ClaimEffect(h, step);
    case SkipMalformed(_, _) => SkipEffect(h, step);
    case Register(_) =>
    case Write(_, _, _) => WriteEffect(h, step);
    case StartAck(_, _) =>
    case Resolve(_, _, _) => ResolveEffect(h, step);
    case FinishAck(_) => FinishAckEffect(h, step);
    case Take(_) =>
    case FinishTake(_, _) => FinishTakeEffect(h, step);
  }

  // ---- The invariant ----

  /** A thread that may still write its command holds the claim on it. */
  ghost predicate ThreadOk(h: Hub, t: nat)
    requires t < |h.threads|
  {
    var thread := h.threads[t];
    match thread
    case Deliverer(cmd, _, stage) =>
      stage == Claimed || stage == Registered ==> cmd in h.claimant && h.claimant[cmd] == t && cmd !in h.written
    case Acker(cmd, _, _, resolved, _) => resolved ==> Done(h, cmd)
    case Taker(_, _, _) => true
  }

  ghost predicate HubOk(h: Hub) {
    && (forall t :: 0 <= t < |h.threads| ==> ThreadOk(h, t))
    && (forall cmd :: cmd in h.claimant ==> cmd in h.rows && h.rows[cmd] != Pending)
    && (forall cmd :: cmd in h.written ==> cmd in h.claimant)
    && (forall i, j :: 0 <= i < j < |h.written| ==> h.written[i] != h.written[j])
    && (forall cmd :: cmd in h.accepted ==> Done(h, cmd))
    && (forall i :: 0 <= i < |h.told| && h.told[i].verdict == Accepted ==> Done(h, h.told[i].cmd))
  }

  /** Rows are final once completed or unknown, and never go back to pending. */
  lemma RowsAreFinal(h: Hub, step: Step, cmd: string)
    requires Enabled(h, step) && cmd in h.rows
    ensures cmd in Next(h, step).rows
    ensures Done(h, cmd) ==> Done(Next(h, step), cmd)
    ensures h.rows[cmd] == OutcomeUnknown ==> Next(h, step).rows[cmd] == OutcomeUnknown
    ensures h.rows[cmd] != Pending ==> Next(h, step).rows[cmd] != Pending
  {
    StepEffect(h, step);
    hide Next;
  }

  /** Only the claim changes who holds a row, and it takes a row that nobody held. */
  lemma ClaimantsGrow(h: Hub, step: Step, cmd: string)
    requires HubOk(h) && Enabled(h, step) && cmd in h.claimant
    ensures cmd in Next(h, step).claimant && Next(h, step).claimant[cmd] == h.claimant[cmd]
  {
    StepEffect(h, step);
    hide Next;
    hide ThreadOk;
  }

  /** Only a thread that holds the claim writes, and it writes its own command, which was not written yet. */
  lemma WritesOwnCommand(h: Hub, step: Step)
    requires HubOk(h) && Enabled(h, step)
    ensures var w := Next(h, step).written;
            w == h.written ||
            (step.Write? && step.t < |h.threads| && h.threads[step.t].cmd !in h.written &&
             w == h.written + [h.threads[step.t].cmd])
  {
    StepEffect(h, step);
    if step.Write? {
      assert ThreadOk(h, step.t);
    }
    hide Next, ThreadOk;
  }

  lemma ThreadKept(h: Hub, step: Step, t: nat)
    requires HubOk(h) && Enabled(h, step) && t < |h.threads| && t < |Next(h, step).threads|
    requires Next(h, step).threads[t] == h.threads[t]
    ensures ThreadOk(Next(h, step), t)
  {
    assert ThreadOk(h, t);
    var cmd := h.threads[t].cmd;
    if cmd in h.rows {
      RowsAreFinal(h, step, cmd);
    }
    if cmd in h.claimant {
      ClaimantsGrow(h, step, cmd);
    }
    WritesOwnCommand(h, step);
    if step.Write? {
      assert ThreadOk(h, step.t);
      StepEffect(h, step);
    }
    hide Next, HubOk;
  }

  /** A step keeps every thread but the one it moves. */
  lemma OthersStay(h: Hub, step: Step, t: nat)
    requires Enabled(h, step) && t < |h.threads|
    ensures t < |Next(h, step).threads|
    ensures Moves(step) == Some(t) || Next(h, step).threads[t] == h.threads[t]
  {
    StepEffect(h, step);
    hide Next;
  }

  lemma MoverOk(h: Hub, step: Step, t: nat)
    requires HubOk(h) && Enabled(h, step) && Moves(step) == Some(t) && t < |h.threads| && t < |Next(h, step).threads|
    ensures ThreadOk(Next(h, step), t)
  {
    StepEffect(h, step);
    assert ThreadOk(h, t);
    hide Next, HubOk;
  }

  lemma ThreadAdded(h: Hub, step: Step, t: nat)
    requires Enabled(h, step) && |h.threads| <= t < |Next(h, step).threads|
    ensures ThreadOk(Next(h, step), t)
  {
    StepEffect(h, step);
    hide Next;
  }

  /** Thread `t` is the acknowledgement that lets this peer know its command was accepted. */
  predicate Answers(h: Hub, t: nat, told: Told) {
    && t < |h.threads| && h.threads[t].Acker? && h.threads[t].accepts && h.threads[t].resolved
    && h.threads[t].cmd == told.cmd && h.threads[t].client.peer == Some(told.peer)
  }

  /** A step tells at most one more verdict, and only an answering acknowledgement tells accepted. */
  lemma ToldGrows(h: Hub, step: Step)
    requires Enabled(h, step)
    ensures var told := Next(h, step).told;
            told == h.told ||
            (|told| == |h.told| + 1 && told[..|h.told|] == h.told &&
             (told[|h.told|].verdict == Accepted ==> step.FinishAck? && Answers(h, step.t, told[|h.told|])))
  {
    StepEffect(h, step);
    hide Next;
  }

  lemma ToldOk(h: Hub, step: Step, i: nat)
    requires HubOk(h) && Enabled(h, step) && i < |Next(h, step).told| && Next(h, step).told[i].verdict == Accepted
    ensures Done(Next(h, step), Next(h, step).told[i].cmd)
  {
    hide Next, Done;
    ToldGrows(h, step);
    if i < |h.told| {
      assert Next(h, step).told[i] == h.told[i];
      DoneStays(h, step, h.told[i].cmd);
    } else {
      assert ThreadOk(h, step.t);
      DoneStays(h, step, h.threads[step.t].cmd);
    }
  }

  lemma DoneStays(h: Hub, step: Step, cmd: string)
    requires Enabled(h, step) && Done(h, cmd)
    ensures Done(Next(h, step), cmd)
  {
    hide Next;
    RowsAreFinal(h, step, cmd);
  }

  lemma CacheOk(h: Hub, step: Step, cmd: string)
    requires HubOk(h) && Enabled(h, step) && cmd in Next(h, step).accepted
    ensures Done(Next(h, step), cmd)
  {
    StepEffect(h, step);
    hide Next;
    if cmd in h.accepted {
      RowsAreFinal(h, step, cmd);
    } else {
      assert step.FinishAck? && ThreadOk(h, step.t);
    }
  }

  lemma ClaimedRowsOk(h: Hub, step: Step, cmd: string)
    requires HubOk(h) && Enabled(h, step) && cmd in Next(h, step).claimant
    ensures cmd in Next(h, step).rows && Next(h, step).rows[cmd] != Pending
  {
    StepEffect(h, step);
    hide Next;
    if cmd in h.claimant {
      RowsAreFinal(h, step, cmd);
    }
  }

  lemma WrittenOk(h: Hub, step: Step, cmd: string)
    requires HubOk(h) && Enabled(h, step) && cmd in Next(h, step).written
    ensures cmd in Next(h, step).claimant
  {
    StepEffect(h, step);
    WritesOwnCommand(h, step);
    hide Next;
    if step.Write? {
      assert ThreadOk(h, step.t);
    }
    if cmd in h.claimant {
      ClaimantsGrow(h, step, cmd);
    }
  }

  lemma StepOk(h: Hub, step: Step)
    requires HubOk(h) && Enabled(h, step)
    ensures HubOk(Next(h, step))
  {
    var h' := Next(h, step);
    WritesOwnCommand(h, step);
    hide Next, ThreadOk, Done;
    forall t | 0 <= t < |h'.threads|
      ensures ThreadOk(h', t)
    {
      if t >= |h.threads| {
        ThreadAdded(h, step, t);
      } else {
        OthersStay(h, step, t);
        if Moves(step) == Some(t) {
          MoverOk(h, step, t);
        } else {
          ThreadKept(h, step, t);
        }
      }
    }
    forall cmd | cmd in h'.claimant
      ensures cmd in h'.rows && h'.rows[cmd] != Pending
    {
      ClaimedRowsOk(h, step, cmd);
    }
    forall cmd | cmd in h'.written
      ensures cmd in h'.claimant
    {
      WrittenOk(h, step, cmd);
    }
    forall cmd | cmd in h'.accepted
      ensures Done(h', cmd)
    {
      CacheOk(h, step, cmd);
    }
    forall i | 0 <= i < |h'.told| && h'.told[i].verdict == Accepted
      ensures Done(h', h'.told[i].cmd)
    {
      ToldOk(h, step, i);
    }
  }

  lemma {:induction false} ExecutionOk(trace: seq<Hub>, steps: seq<Step>, n: nat)
    requires Execution(trace, steps) && n < |trace|
    ensures HubOk(trace[n])
    decreases n
  {
    hide Next, HubOk;
    if n > 0 {
      ExecutionOk(trace, steps, n - 1);
      StepOk(trace[n - 1], steps[n - 1]);
    } else {
      EmptyOk();
    }
  }

  lemma EmptyOk()
    ensures HubOk(Empty())
  {
  }

  // ---- Main results ----

  /**
    Over any run each command reaches an adapter at most once, counting writes that reported an error, and only
    after its row was claimed.
  */
  lemma WrittenAtMostOnce(trace: seq<Hub>, steps: seq<Step>, n: nat)
    requires Execution(trace, steps) && n < |trace|
    ensures var h := trace[n];
            && (forall i, j :: 0 <= i < j < |h.written| ==> h.written[i] != h.written[j])
            && (forall cmd :: cmd in h.written ==> cmd in h.rows && h.rows[cmd] != Pending)
  {
    hide Next;
    ExecutionOk(trace, steps, n);
  }

  /** A peer told accepted can rely on it: the row is completed then and at every later point of the run. */
  lemma {:induction false} AcceptedMeansCompleted(trace: seq<Hub>, steps: seq<Step>, i: nat, j: nat, k: nat)
    requires Execution(trace, steps) && i <= j < |trace| && k < |trace[i].told| && trace[i].told[k].verdict == Accepted
    ensures Done(trace[j], trace[i].told[k].cmd)
    decreases j
  {
    hide Next;
    if i < j {
      AcceptedMeansCompleted(trace, steps, i, j - 1, k);
      RowsAreFinal(trace[j - 1], steps[j - 1], trace[i].told[k].cmd);
    } else {
      ExecutionOk(trace, steps, i);
    }
  }

  /** An acknowledgement that resolved its row stays one. */
  lemma AnswersStays(h: Hub, step: Step, t: nat, told: Told)
    requires Enabled(h, step) && Answers(h, t, told)
    ensures Answers(Next(h, step), t, told)
  {
    OthersStay(h, step, t);
    if Moves(step) == Some(t) {
      assert step == FinishAck(t);
      assert Next(h, step).threads[t] == h.threads[t].(answered := true);
    }
    hide Next, Enabled;
  }

  /** A peer is told accepted only by an adapter acknowledgement of acceptance for its own command. */
  lemma {:induction false} AcceptedIsAcknowledged(trace: seq<Hub>, steps: seq<Step>, n: nat, k: nat) returns (t: nat)
    requires Execution(trace, steps) && n < |trace| && k < |trace[n].told| && trace[n].told[k].verdict == Accepted
    ensures Answers(trace[n], t, trace[n].told[k])
    decreases n
  {
    hide Next, Enabled, Answers;
    var h, step := trace[n - 1], steps[n - 1];
    ToldGrows(h, step);
    if k < |h.told| {
      assert trace[n].told[k] == h.told[k];
      t := AcceptedIsAcknowledged(trace, steps, n - 1, k);
    } else {
      t := step.t;
    }
    AnswersStays(h, step, t, trace[n].told[k]);
  }
}
