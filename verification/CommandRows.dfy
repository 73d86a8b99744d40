/**
  What becomes of a command's row over a run, told by the steps that took effect on it: when it is stored,
  received, completed or given up as unknown. Also which commands reached an adapter, which are remembered as
  accepted, and which sends were answered at once.
*/
module CommandRows {
  import opened Wrappers
  import opened CommandLedger

  function RowOf(h: Hub, cmd: string): Option<Row> {
    if cmd in h.rows then Some(h.rows[cmd]) else None
  }

  predicate Open(h: Hub, cmd: string) {
    RowOf(h, cmd) == Some(Pending) || RowOf(h, cmd) == Some(Received)
  }

  // ---- Steps that take effect on a row ----

  /** A send that finds neither row nor accepted command, or a refused one whose commit stored the row. */
  predicate Stores(h: Hub, step: Step, cmd: string) {
    && cmd !in h.rows
    && ((step.Send? && step.cmd == cmd && cmd !in h.accepted) || (step.Refuse? && step.cmd == cmd && step.stored))
  }

  predicate On(h: Hub, step: Step, cmd: string)
    requires Enabled(h, step)
  {
    Moves(step).Some? && h.threads[Moves(step).value].cmd == cmd
  }

  /** A claim of the pending row that took effect, whatever it reported. */
  predicate Receives(h: Hub, step: Step, cmd: string)
    requires Enabled(h, step)
  {
    step.Claim? && On(h, step, cmd) && TakesEffect(step.result) && RowOf(h, cmd) == Some(Pending)
  }

  /** A resolution of the received row that took effect, whatever it reported. */
  predicate Completes(h: Hub, step: Step, cmd: string)
    requires Enabled(h, step)
  {
    step.Resolve? && On(h, step, cmd) && TakesEffect(step.result) && RowOf(h, cmd) == Some(Received)
  }

  /**
    The step gives the command up while its row is open, and that took effect: a send whose claim failed or found
    the row received, a redelivery that found it received, a malformed carrier, a failed write, an acknowledgement
    that did not resolve the row, a timeout or a disconnect.
  */
  predicate GivesUp(h: Hub, step: Step, cmd: string)
    requires Enabled(h, step)
  {
    && Open(h, cmd) && On(h, step, cmd)
    && match step {
         case Refuse(_, _, _) => false
         case Send(_, _, _) => false
         case Redeliver(_, _) => false
         case Claim(t, result, gone) =>
           gone && if h.rows[cmd] == Pending then result.Failed? && h.threads[t].waiter.peer.Some?
                   else result.Answered? || h.threads[t].waiter.peer.Some?
         case SkipMalformed(_, gone) => gone
         case Register(_) => false
         case Write(_, result, gone) => gone && result.Failed?
         case StartAck(_, _) => false
         case Resolve(_, result, gone) => gone && (h.rows[cmd] == Received ==> !TakesEffect(result))
         case FinishAck(_) => false
         case Take(_) => false
         case FinishTake(_, gone) => gone
       }
  }

  lemma ClaimStep(h: Hub, step: Step, cmd: string)
    requires Enabled(h, step) && step.Claim?
    ensures RowOf(Next(h, step), cmd) ==
            if GivesUp(h, step, cmd) then Some(OutcomeUnknown)
            else if Receives(h, step, cmd) then Some(Received)
            else RowOf(h, cmd)
  {
  }

  lemma WriteStep(h: Hub, step: Step, cmd: string)
    requires Enabled(h, step) && step.Write?
    ensures RowOf(Next(h, step), cmd) == if GivesUp(h, step, cmd) then Some(OutcomeUnknown) else RowOf(h, cmd)
  {
  }

  lemma ResolveStep(h: Hub, step: Step, cmd: string)
    requires Enabled(h, step) && step.Resolve?
    ensures RowOf(Next(h, step), cmd) ==
            if Completes(h, step, cmd) then Some(Completed)
            else if GivesUp(h, step, cmd) then Some(OutcomeUnknown)
            else RowOf(h, cmd)
  {
  }

  lemma FinishAckStep(h: Hub, step: Step, cmd: string)
    requires Enabled(h, step) && step.FinishAck?
    ensures RowOf(Next(h, step), cmd) == RowOf(h, cmd)
  {
  }

  lemma FinishTakeStep(h: Hub, step: Step, cmd: string)
    requires Enabled(h, step) && step.FinishTake?
    ensures RowOf(Next(h, step), cmd) == if GivesUp(h, step, cmd) then Some(OutcomeUnknown) else RowOf(h, cmd)
  {
  }

  /** A step changes a row as its effect says, and no other row. */
  lemma RowStep(h: Hub, step: Step, cmd: string)
    requires Enabled(h, step)
    ensures RowOf(Next(h, step), cmd) ==
            if Stores(h, step, cmd) then Some(Pending)
            else if Completes(h, step, cmd) then Some(Completed)
            else if GivesUp(h, step, cmd) then Some(OutcomeUnknown)
            else if Receives(h, step, cmd) then Some(Received)
            else RowOf(h, cmd)
  {
    match step
    case Refuse(_, _, _) =>
    case Send(_, _, _) =>
    case Redeliver(_, _) =>
    case Claim(_, _, _) => ClaimStep(h, step, cmd);
    case SkipMalformed(_, _) =>
    case Register(_) =>
    case Write(_, _, _) => WriteStep(h, step, cmd);
    case StartAck(_, _) =>
    case Resolve(_, _, _) => ResolveStep(h, step, cmd);
    case FinishAck(_) => FinishAckStep(h, step, cmd);
    case Take(_) =>
    case FinishTake(_, _) => FinishTakeStep(h, step, cmd);
  }

  lemma UnknownStep(h: Hub, step: Step, cmd: string)
    requires Enabled(h, step)
    ensures RowOf(Next(h, step), cmd) == Some(OutcomeUnknown) <==>
            RowOf(h, cmd) == Some(OutcomeUnknown) || GivesUp(h, step, cmd)
  {
    RowStep(h, step, cmd);
    hide Next;
  }

  lemma StoredStep(h: Hub, step: Step, cmd: string)
    requires Enabled(h, step)
    ensures cmd in Next(h, step).rows <==> cmd in h.rows || Stores(h, step, cmd)
  {
    RowStep(h, step, cmd);
    hide Next;
  }

  lemma LeftPendingStep(h: Hub, step: Step, cmd: string)
    requires Enabled(h, step)
    ensures LeftPending(Next(h, step), cmd) <==>
            LeftPending(h, cmd) || Receives(h, step, cmd) || (GivesUp(h, step, cmd) && h.rows[cmd] == Pending)
  {
    RowStep(h, step, cmd);
    hide Next;
  }

  // ---- Rows over a run ----

  /** The row is there and was claimed or given up. */
  predicate LeftPending(h: Hub, cmd: string) {
    cmd in h.rows && h.rows[cmd] != Pending
  }

  /** Step `j` of the run stored the row. */
  ghost predicate StoredAt(trace: seq<Hub>, steps: seq<Step>, j: nat, cmd: string) {
    j < |steps| && j < |trace| && Stores(trace[j], steps[j], cmd)
  }

  ghost predicate ReceivedAt(trace: seq<Hub>, steps: seq<Step>, j: nat, cmd: string) {
    j < |steps| && j < |trace| && Enabled(trace[j], steps[j]) && Receives(trace[j], steps[j], cmd)
  }

  ghost predicate GivenUpAt(trace: seq<Hub>, steps: seq<Step>, j: nat, cmd: string) {
    j < |steps| && j < |trace| && Enabled(trace[j], steps[j]) && GivesUp(trace[j], steps[j], cmd)
  }

  lemma StartsEmpty(trace: seq<Hub>, steps: seq<Step>)
    requires Execution(trace, steps)
    ensures |trace| > 0 && trace[0] == Empty()
  {
  }

  lemma UnknownAt(trace: seq<Hub>, steps: seq<Step>, j: nat, cmd: string)
    requires Execution(trace, steps) && j + 1 < |trace|
    ensures RowOf(trace[j + 1], cmd) == Some(OutcomeUnknown) <==>
            RowOf(trace[j], cmd) == Some(OutcomeUnknown) || GivenUpAt(trace, steps, j, cmd)
  {
    UnknownStep(trace[j], steps[j], cmd);
    hide Next, GivesUp, RowOf;
  }

  lemma RowAt(trace: seq<Hub>, steps: seq<Step>, j: nat, cmd: string)
    requires Execution(trace, steps) && j + 1 < |trace|
    ensures cmd in trace[j + 1].rows <==> cmd in trace[j].rows || StoredAt(trace, steps, j, cmd)
  {
    StoredStep(trace[j], steps[j], cmd);
    hide Next, Stores;
  }

  lemma LeftPendingAt(trace: seq<Hub>, steps: seq<Step>, j: nat, cmd: string)
    requires Execution(trace, steps) && j + 1 < |trace|
    ensures LeftPending(trace[j + 1], cmd) <==>
            LeftPending(trace[j], cmd) || ReceivedAt(trace, steps, j, cmd) || GaveUpPendingAt(trace, steps, j, cmd)
  {
    LeftPendingStep(trace[j], steps[j], cmd);
    hide Next, Receives, LeftPending;
  }

  /** A row is outcome-unknown exactly when some step gave the command up while its row was open. */
  lemma {:induction false} UnknownIffGivenUp(trace: seq<Hub>, steps: seq<Step>, n: nat, cmd: string)
    requires Execution(trace, steps) && n < |trace|
    ensures RowOf(trace[n], cmd) == Some(OutcomeUnknown) <==>
            exists j :: 0 <= j < n && GivenUpAt(trace, steps, j, cmd)
    decreases n
  {
    hide Execution, GivenUpAt;
    if n > 0 {
      UnknownIffGivenUp(trace, steps, n - 1, cmd);
      UnknownAt(trace, steps, n - 1, cmd);
    } else {
      StartsEmpty(trace, steps);
    }
  }

  /** A row exists exactly when a send stored it, accepted or refused. */
  lemma {:induction false} RowIffStored(trace: seq<Hub>, steps: seq<Step>, n: nat, cmd: string)
    requires Execution(trace, steps) && n < |trace|
    ensures cmd in trace[n].rows <==> exists j :: 0 <= j < n && StoredAt(trace, steps, j, cmd)
    decreases n
  {
    hide Execution, StoredAt;
    if n > 0 {
      RowIffStored(trace, steps, n - 1, cmd);
      RowAt(trace, steps, n - 1, cmd);
    } else {
      StartsEmpty(trace, steps);
    }
  }

  /** A stored row is no longer pending exactly when a claim of it took effect or it was given up while pending. */
  lemma {:induction false} LeftPendingIff(trace: seq<Hub>, steps: seq<Step>, n: nat, cmd: string)
    requires Execution(trace, steps) && n < |trace|
    ensures LeftPending(trace[n], cmd) <==>
            exists j :: 0 <= j < n && (ReceivedAt(trace, steps, j, cmd) || GaveUpPendingAt(trace, steps, j, cmd))
    decreases n
  {
    hide Execution, ReceivedAt, GaveUpPendingAt;
    if n > 0 {
      LeftPendingIff(trace, steps, n - 1, cmd);
      LeftPendingAt(trace, steps, n - 1, cmd);
    } else {
      StartsEmpty(trace, steps);
    }
  }

  ghost predicate GaveUpPendingAt(trace: seq<Hub>, steps: seq<Step>, j: nat, cmd: string) {
    GivenUpAt(trace, steps, j, cmd) && cmd in trace[j].rows && trace[j].rows[cmd] == Pending
  }

  // ---- Writes, the accepted cache and immediate answers ----

  /** Step `j` wrote the command, whatever it reported. */
  ghost predicate WrittenAt(trace: seq<Hub>, steps: seq<Step>, j: nat, cmd: string) {
    && j < |steps| && j < |trace| && steps[j].Write? && TakesEffect(steps[j].result)
    && steps[j].t < |trace[j].threads| && trace[j].threads[steps[j].t].cmd == cmd
  }

  /** Step `j` answered an accepting acknowledgement of the command. */
  ghost predicate AcceptedAt(trace: seq<Hub>, steps: seq<Step>, j: nat, cmd: string) {
    && j < |steps| && j < |trace| && steps[j].FinishAck? && steps[j].t < |trace[j].threads|
    && trace[j].threads[steps[j].t].Acker? && trace[j].threads[steps[j].t].accepts
    && trace[j].threads[steps[j].t].cmd == cmd
  }

  /** Step `j` refused a send, or found that its command is known already. */
  ghost predicate AnsweredAt(trace: seq<Hub>, steps: seq<Step>, j: nat, cmd: string, peer: nat, verdict: Verdict) {
    && j < |steps| && j < |trace|
    && ((steps[j].Refuse? && steps[j].cmd == cmd && steps[j].peer == peer && verdict == Rejected) ||
        (steps[j].Send? && steps[j].cmd == cmd && steps[j].peer == peer && verdict == Duplicate &&
         (cmd in trace[j].accepted || cmd in trace[j].rows)))
  }

  lemma StepWrites(h: Hub, step: Step, cmd: string)
    requires Enabled(h, step)
    ensures cmd in Next(h, step).written <==>
            cmd in h.written || (step.Write? && TakesEffect(step.result) && h.threads[step.t].cmd == cmd)
    ensures cmd in Next(h, step).accepted <==>
            cmd in h.accepted || (step.FinishAck? && h.threads[step.t].accepts && h.threads[step.t].cmd == cmd)
  {
    StepEffect(h, step);
    hide Next, RowsMoved;
  }

  lemma WriteAt(trace: seq<Hub>, steps: seq<Step>, j: nat, cmd: string)
    requires Execution(trace, steps) && j + 1 < |trace|
    ensures cmd in trace[j + 1].written <==> cmd in trace[j].written || WrittenAt(trace, steps, j, cmd)
  {
    StepWrites(trace[j], steps[j], cmd);
    hide Next;
  }

  lemma AcceptAt(trace: seq<Hub>, steps: seq<Step>, j: nat, cmd: string)
    requires Execution(trace, steps) && j + 1 < |trace|
    ensures cmd in trace[j + 1].accepted <==> cmd in trace[j].accepted || AcceptedAt(trace, steps, j, cmd)
  {
    StepWrites(trace[j], steps[j], cmd);
    hide Next;
  }

  /** A command has reached an adapter exactly when some write of it took effect. */
  lemma {:induction false} WrittenIff(trace: seq<Hub>, steps: seq<Step>, n: nat, cmd: string)
    requires Execution(trace, steps) && n < |trace|
    ensures cmd in trace[n].written <==> exists j :: 0 <= j < n && WrittenAt(trace, steps, j, cmd)
    decreases n
  {
    hide Execution, WrittenAt;
    if n > 0 {
      WrittenIff(trace, steps, n - 1, cmd);
      WriteAt(trace, steps, n - 1, cmd);
    } else {
      StartsEmpty(trace, steps);
    }
  }

  /** A command is remembered as accepted exactly when an accepting acknowledgement of it answered. */
  lemma {:induction false} AcceptedIff(trace: seq<Hub>, steps: seq<Step>, n: nat, cmd: string)
    requires Execution(trace, steps) && n < |trace|
    ensures cmd in trace[n].accepted <==> exists j :: 0 <= j < n && AcceptedAt(trace, steps, j, cmd)
    decreases n
  {
    hide Execution, AcceptedAt;
    if n > 0 {
      AcceptedIff(trace, steps, n - 1, cmd);
      AcceptAt(trace, steps, n - 1, cmd);
    } else {
      StartsEmpty(trace, steps);
    }
  }

  lemma StepAnswers(h: Hub, step: Step, peer: nat, cmd: string, verdict: Verdict)
    requires Enabled(h, step)
    ensures Told(peer, cmd, verdict, None) in Next(h, step).told <==>
            Told(peer, cmd, verdict, None) in h.told || AnsweredAt([h], [step], 0, cmd, peer, verdict)
  {
    StepEffect(h, step);
    hide Next, RowsMoved;
  }

  lemma AnswerAt(trace: seq<Hub>, steps: seq<Step>, j: nat, peer: nat, cmd: string, verdict: Verdict)
    requires Execution(trace, steps) && j + 1 < |trace|
    ensures Told(peer, cmd, verdict, None) in trace[j + 1].told <==>
            Told(peer, cmd, verdict, None) in trace[j].told || AnsweredAt(trace, steps, j, cmd, peer, verdict)
  {
    StepAnswers(trace[j], steps[j], peer, cmd, verdict);
    hide Next, Enabled;
  }

  /** A send is answered at once exactly when it was refused, or its command has a row or was accepted before. */
  lemma {:induction false} AnsweredAtOnceIff(
    trace: seq<Hub>, steps: seq<Step>, n: nat, peer: nat, cmd: string, verdict: Verdict)
    requires Execution(trace, steps) && n < |trace|
    ensures Told(peer, cmd, verdict, None) in trace[n].told <==>
            exists j :: 0 <= j < n && AnsweredAt(trace, steps, j, cmd, peer, verdict)
    decreases n
  {
    hide Execution, AnsweredAt;
    if n > 0 {
      AnsweredAtOnceIff(trace, steps, n - 1, peer, cmd, verdict);
      AnswerAt(trace, steps, n - 1, peer, cmd, verdict);
    } else {
      StartsEmpty(trace, steps);
    }
  }
}
