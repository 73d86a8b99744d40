/** The owner as the source runs it: fields updated in place by each call, over the directory object. */
module ProcessOwner {
  import opened Wrappers
  import opened OwnershipStorage
  import opened OwnershipFiles
  import P = ProcessOwnership

  class LinuxProcessTreeOwnership {
    const root: OwnershipRoot
    const runtime: string
    var state: State
    var attempt: int
    var tracked: seq<Record>
    var saved: seq<Record>
    var quarantined: bool
    var quiescent: bool
    var version: nat

    function View(): P.Owner
      reads this
    {
      P.Owner(runtime, state, attempt, tracked, saved, quarantined, quiescent, version)
    }

    constructor (root: OwnershipRoot, o: P.Owner)
      ensures View() == o && this.root == root
    {
      this.root, runtime, state, attempt := root, o.runtime, o.state, o.attempt;
      tracked, saved, quarantined, quiescent, version := o.tracked, o.saved, o.quarantined, o.quiescent, o.version;
    }

    method Persist(fault: Fault) returns (ok: bool)
      modifies this, root
      ensures P.Persist(old(View()), old(root.storage), fault) == P.Outcome(View(), root.storage, ok, ok)
    {
      var records := tracked;
      if |records| == 0 && state == Quarantine {
        records := saved;
      }
      saved := records;
      if version >= P.MAX_VERSION {
        return false;
      }
      ok := root.WriteManifest(Manifest(SCHEMA, version + 1, runtime, state, attempt, records), fault);
      if ok {
        version := version + 1;
      }
    }

    method EnterQuarantine(fault: Fault) returns (ok: bool, ghost persisted: bool)
      modifies this, root
      ensures P.Quarantined(old(View()), old(root.storage), fault) == P.Outcome(View(), root.storage, ok, persisted)
    {
      if |tracked| > 0 {
        saved := tracked;
        tracked := [];
      }
      quarantined, quiescent, state := true, false, Quarantine;
      persisted := Persist(fault);
      ok := false;
    }

    method ReloadClean() returns (ok: bool)
      ensures ok <==> P.ReloadsClean(View(), root.storage)
    {
      var r := root.ReadManifest();
      ok := r.Some? && r.value.runtime == runtime && r.value.state == Clean && |r.value.records| == 0;
    }

    method ReconcilePrevious(gone: bool) returns (ok: bool)
      modifies this
      ensures var r := P.Reconcile(old(View()), gone);
              ok == r.Some? && View() == if ok then r.value else old(View())
    {
      if |tracked| == 0 && state == Clean {
        return true;
      }
      if state != Started || |tracked| == 0 {
        return false;
      }
      if !gone {
        return false;
      }
      tracked := [];
      state, attempt := Clean, 0;
      return true;
    }

    method PrepareStart(attempt: int, gone: bool, cancelled: bool, listed: bool, fault: Fault)
      returns (ok: bool, ghost persisted: bool)
      modifies this, root
      ensures P.PrepareStart(old(View()), old(root.storage), attempt, gone, cancelled, listed, fault) ==
              P.Outcome(View(), root.storage, ok, persisted)
    {
      if attempt < 1 || quarantined || state == Quarantine {
        return false, false;
      }
      ok := ReloadClean();
      if !ok {
        return false, false;
      }
      ok := ReconcilePrevious(gone);
      if !ok {
        ok, persisted := EnterQuarantine(fault);
        return;
      }
      if cancelled {
        return false, false;
      }
      if !listed {
        ok, persisted := EnterQuarantine(fault);
        return;
      }
      this.attempt := attempt;
      state := Prepared;
      quiescent := false;
      ok := Persist(fault);
      persisted := ok;
    }

    method AbortStart(attempt: int, gone: bool, fault: Fault) returns (ok: bool, ghost persisted: bool)
      modifies this, root
      ensures P.AbortStart(old(View()), old(root.storage), attempt, gone, fault) ==
              P.Outcome(View(), root.storage, ok, persisted)
    {
      if quarantined {
        return false, false;
      }
      if state != Prepared || (attempt > 0 && attempt != this.attempt) {
        return true, false;
      }
      if !gone {
        ok, persisted := EnterQuarantine(fault);
        return;
      }
      state, this.attempt, quiescent := Clean, 0, true;
      ok := Persist(fault);
      persisted := ok;
    }

    method ObserveStarted(pid: int, attempt: int, inventory: Option<seq<Record>>, cancelled: bool, fault: Fault)
      returns (ok: bool, ghost persisted: bool)
      modifies this, root
      ensures P.ObserveStarted(old(View()), old(root.storage), pid, attempt, inventory, cancelled, fault) ==
              P.Outcome(View(), root.storage, ok, persisted)
    {
      if pid <= 0 {
        return false, false;
      }
      if quarantined || state != Prepared || attempt != this.attempt || inventory.None? {
        ok, persisted := EnterQuarantine(fault);
        return;
      }
      tracked := inventory.value;
      state := Started;
      if cancelled {
        ok, persisted := EnterQuarantine(fault);
        return;
      }
      ok := Persist(fault);
      persisted := ok;
    }

    method Quiesce(
      refreshed: seq<Record>, stopped: bool, gone: bool, fault: Fault) returns (ok: bool, ghost persisted: bool)
      modifies this, root
      ensures P.Quiesce(old(View()), old(root.storage), refreshed, stopped, gone, fault) ==
              P.Outcome(View(), root.storage, ok, persisted)
    {
      if quarantined {
        return false, false;
      }
      if state == Clean {
        ok := ReloadClean();
        if !ok {
          ok, persisted := EnterQuarantine(fault);
          return;
        }
        quiescent := true;
        return true, false;
      }
      if state == Prepared {
        if !gone {
          ok, persisted := EnterQuarantine(fault);
          return;
        }
        state, attempt, quiescent := Clean, 0, true;
        ok := Persist(fault);
        return ok, ok;
      }
      if state != Started || |tracked| == 0 {
        ok, persisted := EnterQuarantine(fault);
        return;
      }
      tracked := refreshed;
      if !stopped || !gone {
        ok, persisted := EnterQuarantine(fault);
        return;
      }
      tracked := [];
      state, attempt, quiescent := Clean, 0, true;
      ok := Persist(fault);
      persisted := ok;
    }
  }
}
