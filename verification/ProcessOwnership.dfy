/**
  Ownership of a provider's process tree across restarts. Each call of the owner is one step; what it
  learns from the kernel, and where its manifest commit fails, are parameters of the step. A crash may
  come between any two steps, and a failed commit leaves the directory as the crash model allows.

  `mayLive` records that a start was allowed and that nothing has since shown the tree to be gone.
*/
module ProcessOwnership {
  import opened Wrappers
  import opened OwnershipStorage

  const MAX_VERSION := 0xFFFF_FFFF_FFFF_FFFF

  /** One owner instance; `tracked` are the records of the processes it holds. */
  datatype Owner = Owner(
    runtime: string, state: State, attempt: int, tracked: seq<Record>, saved: seq<Record>,
    quarantined: bool, quiescent: bool, version: nat)

  /** `persisted`: the call's manifest commit succeeded. */
  datatype Outcome = Outcome(owner: Owner, storage: Storage, ok: bool, persisted: bool)

  // ---- The owner's calls ----

  function NextManifest(o: Owner): Manifest {
    var records := if o.tracked == [] && o.state == Quarantine then o.saved else o.tracked;
    Manifest(SCHEMA, o.version + 1, o.runtime, o.state, o.attempt, records)
  }

  function Persist(o: Owner, s: Storage, fault: Fault): Outcome {
    var m := NextManifest(o);
    var o' := o.(saved := m.records);
    if o.version >= MAX_VERSION then Outcome(o', s, false, false)
    else if CommitFails(s, m, fault) then Outcome(o', Committed(s, m, fault), false, false)
    else Outcome(o'.(version := m.version), Committed(s, m, fault), true, true)
  }

  function EnterQuarantine(o: Owner): Owner {
    o.(saved := if o.tracked != [] then o.tracked else o.saved, tracked := [],
       quarantined := true, quiescent := false, state := Quarantine)
  }

  function Quarantined(o: Owner, s: Storage, fault: Fault): Outcome {
    Persist(EnterQuarantine(o), s, fault).(ok := false)
  }

  /** The manifest on disk is this runtime's and clean. */
  ghost predicate ReloadsClean(o: Owner, s: Storage) {
    var r := Read(Visible(s));
    r.Some? && r.value.runtime == o.runtime && r.value.state == Clean && r.value.records == []
  }

  /** The previous tree: `gone` when the tracked processes exited and no unknown child is left. */
  function Reconcile(o: Owner, gone: bool): Option<Owner> {
    if o.tracked == [] && o.state == Clean then Some(o)
    else if o.state != Started || o.tracked == [] || !gone then None
    else Some(o.(tracked := [], state := Clean, attempt := 0))
  }

  ghost function PrepareStart(
    o: Owner, s: Storage, attempt: int, gone: bool, cancelled: bool, listed: bool, fault: Fault): Outcome {
    if attempt < 1 || o.quarantined || o.state == Quarantine || !ReloadsClean(o, s) then Outcome(o, s, false, false)
    else
      var previous := Reconcile(o, gone);
      if previous.None? then Quarantined(o, s, fault)
      else if cancelled then Outcome(previous.value, s, false, false)
      else if !listed then Quarantined(previous.value, s, fault)
      else Persist(previous.value.(attempt := attempt, state := Prepared, quiescent := false), s, fault)
  }

  /** `gone`: no child but the baseline's is left. */
  function BecomeClean(o: Owner, s: Storage, gone: bool, fault: Fault): Outcome {
    if !gone then Quarantined(o, s, fault)
    else
      var tracked := if o.state == Started then [] else o.tracked;
      Persist(o.(tracked := tracked, state := Clean, attempt := 0, quiescent := true), s, fault)
  }

  function AbortStart(o: Owner, s: Storage, attempt: int, gone: bool, fault: Fault): Outcome {
    if o.quarantined then Outcome(o, s, false, false)
    else if o.state != Prepared || (attempt > 0 && attempt != o.attempt) then Outcome(o, s, true, false)
    else BecomeClean(o, s, gone, fault)
  }

  /** `inventory` is the started tree, when it could be listed. */
  function ObserveStarted(
    o: Owner, s: Storage, pid: int, attempt: int, inventory: Option<seq<Record>>, cancelled: bool,
    fault: Fault): Outcome {
    if pid <= 0 then Outcome(o, s, false, false)
    else if o.quarantined || o.state != Prepared || attempt != o.attempt || inventory.None? then
      Quarantined(o, s, fault)
    else
      var started := o.(tracked := inventory.value, state := Started);
      if cancelled then Quarantined(started, s, fault) else Persist(started, s, fault)
  }

  /** `refreshed` is the tree as last listed, `stopped` that every process in it exited in time. */
  ghost function Quiesce(
    o: Owner, s: Storage, refreshed: seq<Record>, stopped: bool, gone: bool, fault: Fault): Outcome {
    if o.quarantined then Outcome(o, s, false, false)
    else if o.state == Clean then
      if ReloadsClean(o, s) then Outcome(o.(quiescent := true), s, true, false) else Quarantined(o, s, fault)
    else if o.state == Prepared then BecomeClean(o, s, gone, fault)
    else if o.state != Started || o.tracked == [] then Quarantined(o, s, fault)
    else BecomeClean(o.(tracked := refreshed), s, stopped && gone, fault)
  }

  /** A new owner over the directory: anything but a clean manifest quarantines it. */
  ghost function Open(s: Storage, fault: Fault): Option<Outcome> {
    var r := Read(Visible(s));
    if r.None? then None
    else
      var m := r.value;
      var o := Owner(m.runtime, m.state, 0, [], m.records, false, false, m.version);
      if m.state == Clean then Some(Outcome(o, s, true, false))
      else Some(Persist(o.(quarantined := true, state := Quarantine), s, fault).(ok := false))
  }

  // ---- Runs ----

  /** `rootExists`: the directory was created. `committed`: some quarantine commit succeeded. */
  datatype Machine = Machine(
    rootExists: bool, storage: Storage, owner: Option<Owner>, mayLive: bool, committed: bool)

  datatype Call =
    | DoPrepareStart(attempt: int, gone: bool, cancelled: bool, listed: bool)
    | DoAbortStart(attempt: int, gone: bool)
    | DoObserveStarted(pid: int, attempt: int, inventory: Option<seq<Record>>, cancelled: bool)
    | DoQuiesce(refreshed: seq<Record>, stopped: bool, gone: bool)
    | DoQuarantine

  datatype Step =
    | Initialize(runtime: string, fault: Fault)
    | OpenOwner(fault: Fault)
    | OnOwner(call: Call, fault: Fault)
    | OwnerDies
    | Reboot(keep: nat -> bool)

  ghost function Outcomes(o: Owner, s: Storage, call: Call, fault: Fault): Outcome {
    match call
    case DoPrepareStart(attempt, gone, cancelled, listed) => PrepareStart(o, s, attempt, gone, cancelled, listed, fault)
    case DoAbortStart(attempt, gone) => AbortStart(o, s, attempt, gone, fault)
    case DoObserveStarted(pid, attempt, inventory, cancelled) =>
      ObserveStarted(o, s, pid, attempt, inventory, cancelled, fault)
    case DoQuiesce(refreshed, stopped, gone) => Quiesce(o, s, refreshed, stopped, gone, fault)
    case DoQuarantine => Quarantined(o, s, fault)
  }

  /** What the call finds in the kernel shows that no process of an earlier tree is left. */
  predicate ShownGone(o: Owner, call: Call) {
    match call
    case DoPrepareStart(_, gone, _, _) => gone
    case DoAbortStart(_, gone) => gone
    case DoQuiesce(_, stopped, gone) => gone && (o.state == Started ==> stopped)
    case DoObserveStarted(_, _, _, _) => false
    case DoQuarantine => false
  }

  ghost function OwnerNext(m: Machine, call: Call, fault: Fault): Machine
    requires m.owner.Some?
  {
    var out := Outcomes(m.owner.value, m.storage, call, fault);
    m.(storage := out.storage, owner := Some(out.owner),
       mayLive := (call.DoPrepareStart? && out.ok) || (m.mayLive && !ShownGone(m.owner.value, call)),
       committed := m.committed || (out.persisted && out.owner.state == Quarantine))
  }

  ghost predicate Enabled(m: Machine, step: Step) {
    match step
    case Initialize(_, _) => !m.rootExists
    case OpenOwner(_) => m.rootExists && m.owner.None?
    case OnOwner(_, _) => m.owner.Some?
    case OwnerDies => m.owner.Some?
    case Reboot(_) => true
  }

  ghost function Next(m: Machine, step: Step): Machine
    requires Enabled(m, step)
  {
    match step
    case Initialize(runtime, fault) =>
      m.(rootExists := true, storage := Committed(m.storage, Manifest(SCHEMA, 1, runtime, Clean, 0, []), fault))
    case OpenOwner(fault) =>
      var found := Open(m.storage, fault);
      if found.None? then m
      else
        var out := found.value;
        if out.owner.state == Quarantine && !out.persisted then m.(storage := out.storage)
        else m.(storage := out.storage, owner := Some(out.owner), committed := m.committed || out.persisted)
    case OnOwner(call, fault) => OwnerNext(m, call, fault)
    case OwnerDies => m.(owner := None)
    case Reboot(keep) => m.(owner := None, storage := Crash(m.storage, keep))
  }

  function Fresh(): Machine {
    Machine(false, Storage(Disk(None, map[]), []), None, false, false)
  }

  ghost predicate Execution(trace: seq<Machine>, steps: seq<Step>) {
    && |trace| == |steps| + 1 && trace[0] == Fresh()
    && forall i :: 0 <= i < |steps| ==> Enabled(trace[i], steps[i]) && trace[i + 1] == Next(trace[i], steps[i])
  }

  // ---- What every step keeps ----

  function NotClean(): Manifest -> bool {
    (x: Manifest) => x.state != Clean
  }

  function InQuarantine(): Manifest -> bool {
    (x: Manifest) => x.state == Quarantine
  }

  /** While a tree may live, no manifest that the directory may turn out to hold is clean. */
  ghost predicate LiveOk(m: Machine) {
    m.mayLive ==> m.rootExists && Every(m.storage, NotClean()) && (m.owner.Some? ==> m.owner.value.state != Clean)
  }

  /** Once a quarantine was committed, the directory holds nothing else and every owner is quarantined. */
  ghost predicate QuarantineOk(m: Machine) {
    && (m.committed ==>
          m.rootExists && Every(m.storage, InQuarantine()) && (m.owner.Some? ==> m.owner.value.quarantined))
    && (m.owner.Some? ==> (m.owner.value.quarantined <==> m.owner.value.state == Quarantine))
  }

  ghost predicate MachineOk(m: Machine) {
    LiveOk(m) && QuarantineOk(m) && (m.owner.Some? ==> m.rootExists)
  }

  lemma PersistHolds(o: Owner, s: Storage, fault: Fault, p: Manifest -> bool)
    requires Every(s, p) && p(NextManifest(o))
    ensures Every(Persist(o, s, fault).storage, p)
  {
    CommitHolds(s, NextManifest(o), fault, p);
  }

  /** A commit that succeeds leaves nothing but its own manifest. */
  lemma PersistReplaces(o: Owner, s: Storage, fault: Fault, p: Manifest -> bool)
    requires Persist(o, s, fault).persisted && p(NextManifest(o))
    ensures Every(Persist(o, s, fault).storage, p)
    ensures Persist(o, s, fault).storage.pending == []
    ensures Persist(o, s, fault).storage.synced.manifest == Some(NextManifest(o))
  {
    var m := NextManifest(o);
    var issued := Issue(s, Writes(m));
    assert issued.pending[|issued.pending| - 1] == PutManifest(m);
    assert Visible(issued).manifest == Some(m);
  }

  /** A tree that may live cannot be followed by a clean read. */
  lemma NoCleanRead(o: Owner, s: Storage)
    requires Every(s, NotClean())
    ensures !ReloadsClean(o, s)
  {
    VisibleHolds(s, NotClean());
  }

  /** While a tree may live, a call that does not show it gone leaves neither the owner nor the directory clean. */
  lemma CallKeepsLive(o: Owner, s: Storage, call: Call, fault: Fault)
    requires Every(s, NotClean()) && o.state != Clean
    ensures var out := Outcomes(o, s, call, fault);
            !ShownGone(o, call) ==> Every(out.storage, NotClean()) && out.owner.state != Clean
    ensures call.DoPrepareStart? ==> !Outcomes(o, s, call, fault).ok
  {
    hide Committed, CommitFails;
    NoCleanRead(o, s);
    PersistHolds(EnterQuarantine(o), s, fault, NotClean());
    match call
    case DoPrepareStart(_, gone, _, _) =>
    case DoAbortStart(_, _) =>
    case DoObserveStarted(_, _, inventory, _) =>
      if inventory.Some? {
        var started := o.(tracked := inventory.value, state := Started);
        PersistHolds(started, s, fault, NotClean());
        PersistHolds(EnterQuarantine(started), s, fault, NotClean());
      }
    case DoQuiesce(refreshed, _, _) =>
      PersistHolds(EnterQuarantine(o.(tracked := refreshed)), s, fault, NotClean());
    case DoQuarantine =>
  }

  /** A start that is allowed leaves a prepared manifest, durably and alone. */
  lemma StartLeavesPrepared(o: Owner, s: Storage, call: Call, fault: Fault)
    requires call.DoPrepareStart? && Outcomes(o, s, call, fault).ok
    ensures var out := Outcomes(o, s, call, fault);
            && Every(out.storage, NotClean()) && out.owner.state == Prepared && out.storage.pending == []
            && out.storage.synced.manifest.Some? && out.storage.synced.manifest.value.state == Prepared
            && out.storage.synced.manifest.value.attempt == call.attempt
    ensures ReloadsClean(o, s) && !o.quarantined
  {
    var previous := Reconcile(o, call.gone).value;
    PersistReplaces(previous.(attempt := call.attempt, state := Prepared, quiescent := false), s, fault, NotClean());
  }

  /** A quarantined owner only ever writes quarantine, and allows nothing. */
  lemma CallKeepsQuarantine(o: Owner, s: Storage, call: Call, fault: Fault)
    requires o.quarantined && o.state == Quarantine
    ensures var out := Outcomes(o, s, call, fault);
            && out.owner.quarantined && out.owner.state == Quarantine
            && (call.DoPrepareStart? || call.DoQuiesce? || call.DoObserveStarted? ==> !out.ok)
            && (Every(s, InQuarantine()) ==> Every(out.storage, InQuarantine()))
  {
    if Every(s, InQuarantine()) {
      PersistHolds(EnterQuarantine(o), s, fault, InQuarantine());
    }
  }

  lemma PersistKeepsFlag()
    ensures forall o, s, fault ::
              var o' := Persist(o, s, fault).owner; o'.state == o.state && o'.quarantined == o.quarantined
  {
  }

  lemma FlagFollowsState(o: Owner, s: Storage, call: Call, fault: Fault)
    requires o.quarantined <==> o.state == Quarantine
    ensures var o' := Outcomes(o, s, call, fault).owner;
            o'.quarantined <==> o'.state == Quarantine
  {
    PersistKeepsFlag();
    hide Persist, ReloadsClean;
  }

  /** When a call commits a quarantine, nothing else is left on disk. */
  lemma CallCommitsQuarantine(o: Owner, s: Storage, call: Call, fault: Fault)
    requires o.quarantined <==> o.state == Quarantine
    ensures var out := Outcomes(o, s, call, fault);
            out.persisted && out.owner.state == Quarantine ==> Every(out.storage, InQuarantine())
  {
    hide Committed, CommitFails, ReloadsClean, Every, Outcomes;
    var out := Outcomes(o, s, call, fault);
    if out.persisted && out.owner.state == Quarantine {
      var from := QuarantinedFrom(o, s, call, fault);
      PersistReplaces(EnterQuarantine(from), s, fault, InQuarantine());
    }
  }

  /** The owner state from which the call entered quarantine. */
  lemma QuarantinedFrom(o: Owner, s: Storage, call: Call, fault: Fault) returns (from: Owner)
    requires var out := Outcomes(o, s, call, fault);
             out.persisted && out.owner.state == Quarantine && (o.quarantined <==> o.state == Quarantine)
    ensures Outcomes(o, s, call, fault) == Quarantined(from, s, fault)
  {
    hide Committed, CommitFails, ReloadsClean;
    match call
    case DoPrepareStart(_, gone, _, _) =>
      from := if Reconcile(o, gone).None? then o else Reconcile(o, gone).value;
    case DoAbortStart(_, _) => from := o;
    case DoObserveStarted(_, attempt, inventory, _) =>
      from := if o.quarantined || o.state != Prepared || attempt != o.attempt || inventory.None? then o
              else o.(tracked := inventory.value, state := Started);
    case DoQuiesce(refreshed, _, _) =>
      from := if o.state == Started && o.tracked != [] then o.(tracked := refreshed) else o;
    case DoQuarantine => from := o;
  }

  lemma OwnerStepOk(m: Machine, call: Call, fault: Fault)
    requires MachineOk(m) && m.owner.Some?
    ensures MachineOk(OwnerNext(m, call, fault))
  {
    hide Outcomes, Every;
    var o, s := m.owner.value, m.storage;
    var out := Outcomes(o, s, call, fault);
    if m.mayLive {
      CallKeepsLive(o, s, call, fault);
    }
    if call.DoPrepareStart? && out.ok {
      StartLeavesPrepared(o, s, call, fault);
    }
    FlagFollowsState(o, s, call, fault);
    CallCommitsQuarantine(o, s, call, fault);
    if o.quarantined {
      CallKeepsQuarantine(o, s, call, fault);
    }
  }

  lemma OpenOk(m: Machine, fault: Fault)
    requires MachineOk(m) && Enabled(m, OpenOwner(fault))
    ensures MachineOk(Next(m, OpenOwner(fault)))
  {
    hide Committed, CommitFails;
    var found := Open(m.storage, fault);
    if found.Some? {
      var r := Read(Visible(m.storage)).value;
      var o := Owner(r.runtime, Quarantine, 0, [], r.records, true, false, r.version);
      if m.mayLive {
        VisibleHolds(m.storage, NotClean());
        PersistHolds(o, m.storage, fault, NotClean());
      }
      if m.committed {
        VisibleHolds(m.storage, InQuarantine());
        PersistHolds(o, m.storage, fault, InQuarantine());
      }
      if found.value.persisted {
        PersistReplaces(o, m.storage, fault, InQuarantine());
      }
    }
  }

  lemma StepOk(m: Machine, step: Step)
    requires MachineOk(m) && Enabled(m, step)
    ensures MachineOk(Next(m, step))
    ensures m.committed ==> Next(m, step).committed
  {
    match step
    case Initialize(_, _) =>
    case OpenOwner(fault) => OpenOk(m, fault);
    case OnOwner(call, fault) => OwnerStepOk(m, call, fault);
    case OwnerDies =>
    case Reboot(keep) =>
      if m.mayLive {
        CrashHolds(m.storage, keep, NotClean());
      }
      if m.committed {
        CrashHolds(m.storage, keep, InQuarantine());
      }
  }

  lemma {:induction false} ExecutionOk(trace: seq<Machine>, steps: seq<Step>, n: nat)
    requires Execution(trace, steps) && n < |trace|
    ensures MachineOk(trace[n])
    decreases n
  {
    if n > 0 {
      ExecutionOk(trace, steps, n - 1);
      StepOk(trace[n - 1], steps[n - 1]);
    }
  }

  // ---- Main results ----

  /**
    In every run, with crashes and failing commits anywhere: a start is allowed only when no earlier
    tree may live, no quarantine was ever committed, and the directory reads as this runtime's clean
    manifest with no record file. The allowed start is on disk before it returns.
  */
  lemma StartIsSafe(trace: seq<Machine>, steps: seq<Step>, n: nat)
    requires Execution(trace, steps) && n < |steps| && steps[n].OnOwner? && steps[n].call.DoPrepareStart?
    requires Outcomes(trace[n].owner.value, trace[n].storage, steps[n].call, steps[n].fault).ok
    ensures !trace[n].mayLive && !trace[n].committed
    ensures var d := Visible(trace[n].storage);
            && Read(d).Some? && Read(d).value.state == Clean && d.files == map[]
            && Read(d).value.runtime == trace[n].owner.value.runtime
    ensures var s := trace[n + 1].storage;
            && s.pending == [] && s.synced.manifest.Some? && s.synced.manifest.value.state == Prepared
            && s.synced.manifest.value.attempt == steps[n].call.attempt
  {
    ExecutionOk(trace, steps, n);
    var o, s := trace[n].owner.value, trace[n].storage;
    StartLeavesPrepared(o, s, steps[n].call, steps[n].fault);
    if trace[n].mayLive {
      CallKeepsLive(o, s, steps[n].call, steps[n].fault);
    }
    assert Visible(s).files.Keys == {};
  }

  /**
    A restart on anything but a clean manifest gives a quarantined owner whose quarantine is committed,
    and while an earlier tree may live no restart finds a clean manifest.
  */
  lemma RestartQuarantines(trace: seq<Machine>, steps: seq<Step>, n: nat)
    requires Execution(trace, steps) && n < |steps| && steps[n].OpenOwner? && trace[n + 1].owner.Some?
    ensures var r, o := Read(Visible(trace[n].storage)), trace[n + 1].owner.value;
            && r.Some? && o.runtime == r.value.runtime
            && (o.quarantined <==> r.value.state != Clean)
            && (o.quarantined ==>
                  trace[n + 1].committed && Every(trace[n + 1].storage, InQuarantine()) && o.saved == r.value.records)
            && (trace[n].mayLive ==> o.quarantined)
  {
    ExecutionOk(trace, steps, n);
    ExecutionOk(trace, steps, n + 1);
    hide Committed, CommitFails;
    if trace[n].mayLive {
      VisibleHolds(trace[n].storage, NotClean());
    }
  }

  /** From the first committed quarantine on, every owner of every later restart is quarantined. */
  lemma {:induction false} QuarantineIsForever(trace: seq<Machine>, steps: seq<Step>, i: nat, j: nat)
    requires Execution(trace, steps) && i <= j < |trace| && trace[i].committed
    ensures trace[j].committed && Every(trace[j].storage, InQuarantine())
    ensures trace[j].owner.Some? ==> trace[j].owner.value.quarantined
    decreases j
  {
    ExecutionOk(trace, steps, j);
    if i < j {
      ExecutionOk(trace, steps, j - 1);
      QuarantineIsForever(trace, steps, i, j - 1);
      StepOk(trace[j - 1], steps[j - 1]);
    }
  }

  /** A quarantine that is committed keeps the records of every process that was tracked. */
  lemma QuarantineKeepsRecords(o: Owner, s: Storage, fault: Fault)
    requires Quarantined(o, s, fault).persisted
    ensures var m := Quarantined(o, s, fault).storage.synced.manifest;
            && m.Some? && m.value.state == Quarantine && m.value.runtime == o.runtime
            && m.value.version == o.version + 1
            && m.value.records == if o.tracked != [] then o.tracked else o.saved
  {
    PersistReplaces(EnterQuarantine(o), s, fault, InQuarantine());
  }

  /** Within one owner quarantine is absorbing whether or not it could be committed. */
  lemma OwnerStaysQuarantined(trace: seq<Machine>, steps: seq<Step>, n: nat)
    requires Execution(trace, steps) && n < |steps| && steps[n].OnOwner? && trace[n].owner.value.quarantined
    ensures trace[n + 1].owner.Some? && trace[n + 1].owner.value.quarantined
    ensures steps[n].call.DoPrepareStart? ==>
              !Outcomes(trace[n].owner.value, trace[n].storage, steps[n].call, steps[n].fault).ok
  {
    ExecutionOk(trace, steps, n);
    CallKeepsQuarantine(trace[n].owner.value, trace[n].storage, steps[n].call, steps[n].fault);
  }

  lemma FirstManifest(runtime: string)
    requires runtime != ""
    ensures var m := Manifest(SCHEMA, 1, runtime, Clean, 0, []);
            Committed(Fresh().storage, m, NoFault) == Storage(Disk(Some(m), map[]), [])
  {
    var m := Manifest(SCHEMA, 1, runtime, Clean, 0, []);
    CommitRoundTrip(Fresh().storage, m, NoFault, All());
    var s := Committed(Fresh().storage, m, NoFault);
    assert s.synced.files.Keys == {};
  }

  lemma UnwrittenQuarantine(o: Owner, s: Storage)
    requires o.tracked == [] && o.version < MAX_VERSION
    ensures Quarantined(o, s, WriteFails(0)) == Outcome(EnterQuarantine(o), s, false, false)
  {
    assert s.pending + [] == s.pending;
  }

  /** A quarantine whose commit failed on a clean directory is forgotten by a restart: the next owner may start. */
  lemma UncommittedQuarantineIsForgotten() returns (trace: seq<Machine>, steps: seq<Step>)
    ensures Execution(trace, steps) && |trace| == 6
    ensures trace[3].owner.Some? && trace[3].owner.value.quarantined && !trace[3].committed
    ensures trace[5].owner.Some? && !trace[5].owner.value.quarantined && trace[5].owner.value.state == Clean
  {
    var m := Manifest(SCHEMA, 1, "r", Clean, 0, []);
    var clean := Storage(Disk(Some(m), map[]), []);
    var o := Owner("r", Clean, 0, [], [], false, false, 1);
    steps := [Initialize("r", NoFault), OpenOwner(NoFault), OnOwner(DoQuarantine, WriteFails(0)), OwnerDies,
              OpenOwner(NoFault)];
    FirstManifest("r");
    UnwrittenQuarantine(o, clean);
    assert Read(Visible(clean)) == Some(m);
    hide Committed, CommitFails, Read, Visible, Quarantined;
    var m1 := Machine(true, clean, None, false, false);
    var m2 := m1.(owner := Some(o));
    var m3 := m1.(owner := Some(EnterQuarantine(o)));
    trace := [Fresh(), m1, m2, m3, m1, m2];
  }
}
