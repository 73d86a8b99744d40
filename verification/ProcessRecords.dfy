/**
  What the manifest says of the processes: which records each committed call leaves on disk, and that the records
  of a started tree reach every later owner, whatever crashes and failed commits come in between.
*/
module ProcessRecords {
  import opened Wrappers
  import opened OwnershipStorage
  import opened ProcessOwnership

  /** The tree that the call last learned of, before it turns out to be uncertain. */
  function LastKnown(o: Owner, call: Call): seq<Record> {
    match call
    case DoPrepareStart(_, gone, _, _) => if o.state == Started && gone then [] else o.tracked
    case DoAbortStart(_, _) => o.tracked
    case DoObserveStarted(_, attempt, inventory, _) =>
      if !o.quarantined && o.state == Prepared && attempt == o.attempt && inventory.Some? then inventory.value
      else o.tracked
    case DoQuiesce(refreshed, _, _) => if o.state == Started && o.tracked != [] then refreshed else o.tracked
    case DoQuarantine => o.tracked
  }

  /** The records that belong to a committed state: none before and after a tree, its own while it runs. */
  function RecordsOf(o: Owner, call: Call, state: State): seq<Record> {
    match state
    case Clean => []
    case Prepared => []
    case Started => LastKnown(o, call)
    case Quarantine => if LastKnown(o, call) != [] then LastKnown(o, call) else o.saved
  }

  /** A call that commits leaves exactly one manifest, of the next version, and nothing that a crash could undo. */
  lemma CommittedManifest(o: Owner, s: Storage, call: Call, fault: Fault)
    requires Outcomes(o, s, call, fault).persisted
    requires (o.quarantined <==> o.state == Quarantine) && (o.tracked != [] ==> o.state == Started)
    ensures var out := Outcomes(o, s, call, fault);
            && out.storage.pending == [] && out.storage.synced.manifest.Some?
            && var m := out.storage.synced.manifest.value;
               && m.schema == SCHEMA && m.version == o.version + 1 == out.owner.version && m.runtime == o.runtime
               && m.state == out.owner.state && m.attempt == out.owner.attempt
               && m.records == RecordsOf(o, call, m.state) == out.owner.saved
  {
    hide Committed, CommitFails, ReloadsClean;
    var from := PersistedFrom(o, s, call, fault);
    PersistReplaces(from, s, fault, Anything());
  }

  function Anything(): Manifest -> bool {
    (_: Manifest) => true
  }

  /** The owner state that the call committed. */
  lemma PersistedFrom(o: Owner, s: Storage, call: Call, fault: Fault) returns (from: Owner)
    requires Outcomes(o, s, call, fault).persisted
    requires (o.quarantined <==> o.state == Quarantine) && (o.tracked != [] ==> o.state == Started)
    ensures var out := Outcomes(o, s, call, fault);
            && out.storage == Persist(from, s, fault).storage && out.owner == Persist(from, s, fault).owner
            && Persist(from, s, fault).persisted
            && from.version == o.version && from.runtime == o.runtime
            && NextManifest(from).records == RecordsOf(o, call, from.state)
  {
    hide Persist, ReloadsClean;
    match call
    case DoPrepareStart(attempt, gone, _, listed) =>
      var previous := Reconcile(o, gone);
      from := if previous.None? then EnterQuarantine(o)
              else if !listed then EnterQuarantine(previous.value)
              else previous.value.(attempt := attempt, state := Prepared, quiescent := false);
    case DoAbortStart(_, gone) =>
      from := if !gone then EnterQuarantine(o) else o.(state := Clean, attempt := 0, quiescent := true);
    case DoObserveStarted(_, attempt, inventory, cancelled) =>
      if o.quarantined || o.state != Prepared || attempt != o.attempt || inventory.None? {
        from := EnterQuarantine(o);
      } else {
        var started := o.(tracked := inventory.value, state := Started);
        from := if cancelled then EnterQuarantine(started) else started;
      }
    case DoQuiesce(refreshed, stopped, gone) =>
      if o.state == Started && o.tracked != [] {
        from := if stopped && gone then o.(tracked := [], state := Clean, attempt := 0, quiescent := true)
                else EnterQuarantine(o.(tracked := refreshed));
      } else if o.state == Prepared && gone {
        from := o.(state := Clean, attempt := 0, quiescent := true);
      } else {
        from := EnterQuarantine(o);
      }
    case DoQuarantine => from := EnterQuarantine(o);
  }

  // ---- Over runs ----

  /** Processes are tracked only while their tree is started. */
  ghost predicate TrackedOk(m: Machine) {
    m.owner.Some? ==> m.owner.value.tracked != [] ==> m.owner.value.state == Started
  }

  lemma PersistKeepsTree()
    ensures forall o, s, fault :: Persist(o, s, fault).owner.tracked == o.tracked
    ensures forall o, s, fault :: Persist(o, s, fault).owner.state == o.state
  {
  }

  lemma CallTracks(o: Owner, s: Storage, call: Call, fault: Fault)
    requires o.tracked != [] ==> o.state == Started
    ensures var o' := Outcomes(o, s, call, fault).owner; o'.tracked != [] ==> o'.state == Started
  {
    PersistKeepsTree();
    hide Persist, ReloadsClean;
  }

  lemma {:induction false} ExecutionTracks(trace: seq<Machine>, steps: seq<Step>, n: nat)
    requires Execution(trace, steps) && n < |trace|
    ensures TrackedOk(trace[n])
    decreases n
  {
    if n > 0 {
      ExecutionTracks(trace, steps, n - 1);
      hide Committed, CommitFails, Read;
      if steps[n - 1].OnOwner? {
        hide Outcomes;
        CallTracks(trace[n - 1].owner.value, trace[n - 1].storage, steps[n - 1].call, steps[n - 1].fault);
      }
    }
  }

  /**
    In every run: when a call's commit succeeds, the synced manifest is of the next version, states what the owner
    then is, and lists exactly the records that belong to that state.
  */
  lemma CallsCommit(trace: seq<Machine>, steps: seq<Step>, n: nat)
    requires Execution(trace, steps) && n < |steps| && steps[n].OnOwner?
    requires Outcomes(trace[n].owner.value, trace[n].storage, steps[n].call, steps[n].fault).persisted
    ensures var o, s, o' := trace[n].owner.value, trace[n + 1].storage, trace[n + 1].owner.value;
            && trace[n + 1].owner.Some? && s.pending == []
            && s.synced.manifest ==
               Some(Manifest(SCHEMA, o.version + 1, o.runtime, o'.state, o'.attempt,
                             RecordsOf(o, steps[n].call, o'.state)))
  {
    hide Outcomes, RecordsOf, Every, Committed, CommitFails, Read, Open, Crash;
    ExecutionOk(trace, steps, n);
    ExecutionTracks(trace, steps, n);
    CommittedManifest(trace[n].owner.value, trace[n].storage, steps[n].call, steps[n].fault);
  }

  /** Step `n` observed the started tree and committed it. */
  ghost predicate Observed(trace: seq<Machine>, steps: seq<Step>, n: nat, inventory: seq<Record>)
    requires Execution(trace, steps)
  {
    && n < |steps| && steps[n].OnOwner? && steps[n].call.DoObserveStarted?
    && steps[n].call.inventory == Some(inventory)
    && Outcomes(trace[n].owner.value, trace[n].storage, steps[n].call, steps[n].fault).ok
  }

  lemma ObservedOutcome(o: Owner, s: Storage, call: Call, fault: Fault)
    requires call.DoObserveStarted? && Outcomes(o, s, call, fault).ok
    ensures call.inventory.Some? && Outcomes(o, s, call, fault) ==
            Persist(o.(tracked := call.inventory.value, state := Started), s, fault)
    ensures Outcomes(o, s, call, fault).persisted && o.attempt == call.attempt
  {
    hide Committed, CommitFails;
  }

  /**
    A started tree that was observed is on disk before the call returns: the manifest lists exactly the inventory,
    and when the inventory is a sound one its record files are exactly the inventory too.
  */
  lemma ObservedIsOnDisk(trace: seq<Machine>, steps: seq<Step>, n: nat, inventory: seq<Record>)
    requires Execution(trace, steps) && Observed(trace, steps, n, inventory)
    ensures var o, s := trace[n].owner.value, trace[n + 1].storage;
            var m := Manifest(SCHEMA, o.version + 1, o.runtime, Started, steps[n].call.attempt, inventory);
            && s.pending == [] && s.synced.manifest == Some(m)
            && (Sound(m) ==> Read(Visible(s)) == Some(m) && s.synced.files.Keys == Ids(inventory))
  {
    var o, s, call, fault := trace[n].owner.value, trace[n].storage, steps[n].call, steps[n].fault;
    ObservedOutcome(o, s, call, fault);
    var started := o.(tracked := inventory, state := Started);
    PersistReplaces(started, s, fault, Anything());
    if Sound(NextManifest(started)) {
      CommitRoundTrip(s, NextManifest(started), fault, All());
    }
    hide Outcomes;
  }

  /** A manifest that still holds these records. */
  function Holding(records: seq<Record>): Manifest -> bool {
    (x: Manifest) => x.state != Clean && x.records == records
  }

  /** Nothing but these records can be found, and an owner that found them is quarantined with them saved. */
  ghost predicate Surviving(m: Machine, records: seq<Record>) {
    && m.rootExists && Every(m.storage, Holding(records))
    && (m.owner.Some? ==>
          m.owner.value.saved == records && m.owner.value.tracked == [] &&
          m.owner.value.quarantined && m.owner.value.state == Quarantine)
  }

  lemma SurvivesOpen(m: Machine, fault: Fault, records: seq<Record>)
    requires Surviving(m, records) && Enabled(m, OpenOwner(fault))
    ensures Surviving(Next(m, OpenOwner(fault)), records)
  {
    hide Committed, CommitFails;
    var found := Open(m.storage, fault);
    if found.Some? {
      var r := Read(Visible(m.storage)).value;
      VisibleHolds(m.storage, Holding(records));
      var o := Owner(r.runtime, Quarantine, 0, [], r.records, true, false, r.version);
      PersistHolds(o, m.storage, fault, Holding(records));
    }
  }

  lemma SurvivesCall(m: Machine, call: Call, fault: Fault, records: seq<Record>)
    requires Surviving(m, records) && m.owner.Some?
    ensures Surviving(OwnerNext(m, call, fault), records)
  {
    hide Committed, CommitFails, ReloadsClean;
    PersistHolds(EnterQuarantine(m.owner.value), m.storage, fault, Holding(records));
  }

  lemma SurvivesStep(m: Machine, step: Step, records: seq<Record>)
    requires Surviving(m, records) && Enabled(m, step)
    ensures Surviving(Next(m, step), records)
  {
    hide Outcomes, Open;
    match step
    case Initialize(_, _) =>
    case OpenOwner(fault) => SurvivesOpen(m, fault, records);
    case OnOwner(call, fault) => SurvivesCall(m, call, fault, records);
    case OwnerDies =>
    case Reboot(keep) => CrashHolds(m.storage, keep, Holding(records));
  }

  /**
    Once an observed tree's owner dies or the machine goes down, every later owner, after any number of crashes,
    failed commits, restarts and calls, has exactly the observed records saved and is quarantined.
  */
  lemma {:induction false} RecordsSurvive(
    trace: seq<Machine>, steps: seq<Step>, n: nat, j: nat, inventory: seq<Record>)
    requires Execution(trace, steps) && Observed(trace, steps, n, inventory)
    requires n + 2 <= j < |trace| && (steps[n + 1].OwnerDies? || steps[n + 1].Reboot?)
    ensures Every(trace[j].storage, Holding(inventory))
    ensures trace[j].owner.Some? ==>
              trace[j].owner.value.saved == inventory && trace[j].owner.value.quarantined
    ensures Surviving(trace[j], inventory)
    decreases j
  {
    hide Outcomes;
    if j == n + 2 {
      ExecutionOk(trace, steps, n);
      ObservedIsOnDisk(trace, steps, n, inventory);
      assert Every(trace[n + 1].storage, Holding(inventory));
      if steps[n + 1].Reboot? {
        CrashHolds(trace[n + 1].storage, steps[n + 1].keep, Holding(inventory));
      }
    } else {
      RecordsSurvive(trace, steps, n, j - 1, inventory);
      SurvivesStep(trace[j - 1], steps[j - 1], inventory);
    }
  }
}
