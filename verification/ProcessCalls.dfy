/**
  When the owner of a process tree gives up trust in it, and when it lets a tree start: over every run, in terms of
  what its calls found.
*/
module ProcessCalls {
  import opened Wrappers
  import opened OwnershipStorage
  import opened ProcessOwnership

  // ---- What makes a call quarantine its owner ----

  /** The previous tree is settled: there was none, or it was started and is gone. */
  predicate Settled(o: Owner, gone: bool) {
    (o.state == Clean && o.tracked == []) || (o.state == Started && o.tracked != [] && gone)
  }

  /** A start is considered at all: the attempt has a number and the manifest on disk is clean. */
  ghost predicate Considered(o: Owner, s: Storage, attempt: int) {
    attempt >= 1 && !o.quarantined && o.state != Quarantine && ReloadsClean(o, s)
  }

  /** The call finds what its owner cannot account for, or is asked to quarantine. */
  ghost predicate Distrusts(o: Owner, s: Storage, call: Call) {
    match call
    case DoPrepareStart(attempt, gone, cancelled, listed) =>
      Considered(o, s, attempt) && (!Settled(o, gone) || (!cancelled && !listed))
    case DoAbortStart(attempt, gone) =>
      !o.quarantined && o.state == Prepared && (attempt <= 0 || attempt == o.attempt) && !gone
    case DoObserveStarted(pid, attempt, inventory, cancelled) =>
      pid > 0 && (o.quarantined || o.state != Prepared || attempt != o.attempt || inventory.None? || cancelled)
    case DoQuiesce(_, stopped, gone) =>
      !o.quarantined &&
      (match o.state
       case Clean => !ReloadsClean(o, s)
       case Prepared => !gone
       case Started => o.tracked == [] || !stopped || !gone
       case Quarantine => true)
    case DoQuarantine => true
  }

  lemma CallQuarantines(o: Owner, s: Storage, call: Call, fault: Fault)
    ensures Outcomes(o, s, call, fault).owner.state == Quarantine <==> o.state == Quarantine || Distrusts(o, s, call)
  {
    hide ReloadsClean, CommitFails, Committed;
  }

  /** The step makes an owner over a directory whose manifest is not clean, and the quarantine is committed. */
  ghost predicate OpensDirty(m: Machine, step: Step) {
    && step.OpenOwner? && m.rootExists && m.owner.None?
    && var r := Read(Visible(m.storage));
       r.Some? && r.value.state != Clean && r.value.version < MAX_VERSION &&
       !CommitFails(m.storage, Manifest(SCHEMA, r.value.version + 1, r.value.runtime, Quarantine, 0, r.value.records),
                    step.fault)
  }

  ghost predicate LosesTrust(m: Machine, step: Step) {
    OpensDirty(m, step) || (step.OnOwner? && m.owner.Some? && Distrusts(m.owner.value, m.storage, step.call))
  }

  predicate Ends(step: Step) {
    step.OwnerDies? || step.Reboot?
  }

  predicate Quarantining(m: Machine) {
    m.owner.Some? && m.owner.value.state == Quarantine
  }

  lemma OpenQuarantines(m: Machine, fault: Fault)
    requires Enabled(m, OpenOwner(fault))
    ensures Quarantining(Next(m, OpenOwner(fault))) <==> OpensDirty(m, OpenOwner(fault))
  {
    hide Read, Visible, CommitFails, Committed;
  }

  lemma StepQuarantines(m: Machine, step: Step)
    requires Enabled(m, step)
    ensures Quarantining(Next(m, step)) <==> LosesTrust(m, step) || (Quarantining(m) && !Ends(step))
  {
    match step {
      case OpenOwner(fault) => OpenQuarantines(m, fault);
      case OnOwner(call, fault) => CallQuarantines(m.owner.value, m.storage, call, fault);
      case _ =>
    }
    hide Distrusts, Outcomes, Open, Committed, Crash;
  }

  ghost predicate LostAt(trace: seq<Machine>, steps: seq<Step>, j: nat, n: nat)
    requires j < n <= |steps| < |trace|
  {
    LosesTrust(trace[j], steps[j]) && forall k :: j < k < n ==> !Ends(steps[k])
  }

  lemma LostOneMore(trace: seq<Machine>, steps: seq<Step>, n: nat)
    requires 0 < n <= |steps| < |trace|
    ensures LostAt(trace, steps, n - 1, n) <==> LosesTrust(trace[n - 1], steps[n - 1])
    ensures forall j: nat :: j < n - 1 ==>
              (LostAt(trace, steps, j, n) <==> LostAt(trace, steps, j, n - 1) && !Ends(steps[n - 1]))
  {
    hide LosesTrust, Ends;
  }

  /**
    In every run the owner is quarantined exactly when it was opened over a manifest that was not clean, or one
    of its calls found what it could not account for.
  */
  lemma {:induction false} QuarantinedIff(trace: seq<Machine>, steps: seq<Step>, n: nat)
    requires Execution(trace, steps) && n < |trace|
    ensures Quarantining(trace[n]) <==> exists j: nat :: j < n && LostAt(trace, steps, j, n)
    decreases n
  {
    hide Next, Enabled, LosesTrust, Ends, LostAt;
    if n > 0 {
      QuarantinedIff(trace, steps, n - 1);
      StepQuarantines(trace[n - 1], steps[n - 1]);
      LostOneMore(trace, steps, n);
      hide Execution, Quarantining;
      if Quarantining(trace[n - 1]) {
        var j: nat :| j < n - 1 && LostAt(trace, steps, j, n - 1);
        assert LostAt(trace, steps, j, n) <==> !Ends(steps[n - 1]);
      }
      if exists j: nat :: j < n && LostAt(trace, steps, j, n) {
        var j: nat :| j < n && LostAt(trace, steps, j, n);
        assert j < n - 1 ==> LostAt(trace, steps, j, n - 1);
      }
    }
  }

  // ---- When a tree may start ----

  /** A start is allowed: considered, the previous tree settled, the children listed, and the manifest committed. */
  ghost predicate Allows(o: Owner, s: Storage, call: Call, fault: Fault) {
    && call.DoPrepareStart? && Considered(o, s, call.attempt) && Settled(o, call.gone)
    && !call.cancelled && call.listed && o.version < MAX_VERSION
    && !CommitFails(s, Manifest(SCHEMA, o.version + 1, o.runtime, Prepared, call.attempt, []), fault)
  }

  lemma PrepareAllows(o: Owner, s: Storage, call: Call, fault: Fault)
    ensures call.DoPrepareStart? && Outcomes(o, s, call, fault).ok <==> Allows(o, s, call, fault)
  {
    hide ReloadsClean, CommitFails, Committed;
  }

  /** A start that is cancelled once the previous tree is settled writes nothing and leaves a clean owner. */
  lemma CancelledStart(o: Owner, s: Storage, attempt: int, gone: bool, listed: bool, fault: Fault)
    requires Considered(o, s, attempt) && Settled(o, gone)
    ensures var out := PrepareStart(o, s, attempt, gone, true, listed, fault);
            && !out.ok && !out.persisted && out.storage == s
            && out.owner.state == Clean && out.owner.tracked == [] && !out.owner.quarantined
  {
    hide ReloadsClean, CommitFails, Committed;
  }

  /** The step lets a tree start. */
  ghost predicate Lets(m: Machine, step: Step) {
    step.OnOwner? && m.owner.Some? && Allows(m.owner.value, m.storage, step.call, step.fault)
  }

  /** The step finds that no process of an earlier tree is left. */
  predicate Clears(m: Machine, step: Step) {
    step.OnOwner? && m.owner.Some? && ShownGone(m.owner.value, step.call)
  }

  ghost predicate AllowedAt(trace: seq<Machine>, steps: seq<Step>, j: nat, n: nat)
    requires j < n <= |steps| < |trace|
  {
    Lets(trace[j], steps[j]) && forall k :: j < k < n ==> !Clears(trace[k], steps[k])
  }

  lemma StepLives(m: Machine, step: Step)
    requires Enabled(m, step)
    ensures Next(m, step).mayLive <==> Lets(m, step) || (m.mayLive && !Clears(m, step))
  {
    if step.OnOwner? {
      PrepareAllows(m.owner.value, m.storage, step.call, step.fault);
    }
    hide Allows, Outcomes, Open, Committed, Crash, ShownGone;
  }

  lemma AllowedOneMore(trace: seq<Machine>, steps: seq<Step>, n: nat)
    requires 0 < n <= |steps| < |trace|
    ensures AllowedAt(trace, steps, n - 1, n) <==> Lets(trace[n - 1], steps[n - 1])
    ensures forall j: nat :: j < n - 1 ==>
              (AllowedAt(trace, steps, j, n) <==>
               AllowedAt(trace, steps, j, n - 1) && !Clears(trace[n - 1], steps[n - 1]))
  {
    hide Lets, Clears;
  }

  /** A tree may be alive exactly when an earlier call allowed it to start and no later one found it gone. */
  lemma {:induction false} MayLiveIff(trace: seq<Machine>, steps: seq<Step>, n: nat)
    requires Execution(trace, steps) && n < |trace|
    ensures trace[n].mayLive <==> exists j: nat :: j < n && AllowedAt(trace, steps, j, n)
    decreases n
  {
    hide Next, Enabled, Lets, Clears, AllowedAt;
    if n > 0 {
      MayLiveIff(trace, steps, n - 1);
      StepLives(trace[n - 1], steps[n - 1]);
      AllowedOneMore(trace, steps, n);
      hide Execution;
      if trace[n - 1].mayLive {
        var j: nat :| j < n - 1 && AllowedAt(trace, steps, j, n - 1);
        assert AllowedAt(trace, steps, j, n) <==> !Clears(trace[n - 1], steps[n - 1]);
      }
      if exists j: nat :: j < n && AllowedAt(trace, steps, j, n) {
        var j: nat :| j < n && AllowedAt(trace, steps, j, n);
        assert j < n - 1 ==> AllowedAt(trace, steps, j, n - 1);
      }
    }
  }
}
