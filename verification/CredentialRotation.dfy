/** Rotation of one Session's credential lineage: generations, epochs and the loss of authority. */
module CredentialRotation {
  import opened Wrappers

  const RECOVERY_WINDOW := 30

  datatype Credential = Credential(bearer: string, session: string, generation: int, expiresAt: int, lineage: string)

  datatype Pending = Pending(id: string, credential: Credential)

  datatype Status = PendingRotation | ActiveRotation

  datatype Receipt = Receipt(rotationId: string, session: string, epoch: int, generation: int, status: Status)

  datatype Rotation = Rotation(
    session: string, epoch: int, active: Option<Credential>, prior: Option<Credential>, pending: Option<Pending>,
    activeRotationId: string, recoveryUntil: int, revoked: bool, terminal: bool, lost: bool)

  // ---- The calls ----

  predicate Valid(c: Credential, session: string, now: int) {
    c.bearer != "" && c.session != "" && c.lineage != "" && c.generation >= 1 && c.session == session &&
    c.expiresAt > now
  }

  predicate HasAuthority(r: Rotation) {
    !r.revoked && !r.terminal && !r.lost
  }

  /** Authority, and an active credential that has not expired. */
  predicate Authorized(r: Rotation, now: int) {
    HasAuthority(r) && r.active.Some? && r.active.value.expiresAt > now
  }

  /** Finding the active credential expired gives authority up. */
  function Authorize(r: Rotation, now: int): Rotation {
    if HasAuthority(r) && r.active.Some? && r.active.value.expiresAt <= now then r.(lost := true) else r
  }

  function DropStale(r: Rotation, now: int): Rotation {
    if r.pending.Some? && r.pending.value.credential.expiresAt <= now then r.(pending := None) else r
  }

  predicate SameMetadata(a: Credential, b: Credential) {
    a.session == b.session && a.generation == b.generation && a.expiresAt == b.expiresAt && a.lineage == b.lineage
  }

  predicate Prepares(r: Rotation, id: string, c: Credential, now: int) {
    && id != "" && Valid(c, r.session, now) && HasAuthority(r) && r.active.Some?
    && var d := DropStale(r, now);
       if d.pending.Some? then d.pending.value.id == id && SameMetadata(d.pending.value.credential, c)
       else c.generation > r.active.value.generation
  }

  function Prepare(r: Rotation, id: string, c: Credential, now: int): Rotation {
    if id == "" || !Valid(c, r.session, now) || !HasAuthority(r) || r.active.None? then r
    else
      var d := DropStale(r, now);
      if d.pending.Some? || c.generation <= r.active.value.generation then d else d.(pending := Some(Pending(id, c)))
  }

  function PossessionAck(r: Rotation, id: string, epoch: int, now: int): Option<Receipt> {
    if Authorized(r, now) && r.pending.Some? && r.pending.value.id == id && epoch == r.epoch &&
       r.pending.value.credential.expiresAt > now
    then Some(Receipt(id, r.session, r.epoch, r.pending.value.credential.generation, PendingRotation))
    else None
  }

  /** The receipt repeats an activation that already happened. */
  predicate Repeats(r: Rotation, receipt: Receipt) {
    receipt.rotationId != "" && r.activeRotationId == receipt.rotationId && receipt.status.ActiveRotation?
  }

  predicate Installs(r: Rotation, receipt: Receipt, now: int) {
    && Authorized(r, now) && !Repeats(r, receipt) && r.pending.Some?
    && r.pending.value.credential.expiresAt > now
    && receipt == Receipt(r.pending.value.id, r.session, r.epoch, r.pending.value.credential.generation,
                          PendingRotation)
  }

  predicate Activates(r: Rotation, receipt: Receipt, now: int) {
    if Authorized(r, now) && Repeats(r, receipt) then
      receipt.session == r.session && receipt.epoch == r.epoch && receipt.generation == r.active.value.generation
    else Installs(r, receipt, now)
  }

  function Activate(r: Rotation, receipt: Receipt, now: int): Rotation {
    if Installs(r, receipt, now) then
      r.(prior := r.active, recoveryUntil := now + RECOVERY_WINDOW, active := Some(r.pending.value.credential),
         pending := None, activeRotationId := receipt.rotationId)
    else Authorize(r, now)
  }

  predicate Reconnects(r: Rotation, epoch: int, generation: int, now: int) {
    epoch >= 1 && generation >= 1 && Authorized(r, now) && generation == r.active.value.generation && epoch > r.epoch
  }

  function Reconnect(r: Rotation, epoch: int, generation: int, now: int): Rotation {
    if epoch < 1 || generation < 1 then r
    else if Reconnects(r, epoch, generation, now) then r.(epoch := epoch, lost := false)
    else Authorize(r, now)
  }

  function Revoke(r: Rotation): Rotation {
    r.(revoked := true, pending := None, active := None, prior := None)
  }

  function Terminate(r: Rotation): Rotation {
    r.(terminal := true, pending := None, active := None, prior := None)
  }

  // ---- Runs ----

  datatype Step =
    | DoPrepare(id: string, credential: Credential, now: int)
    | DoAck(id: string, epoch: int, now: int)
    | DoActivate(receipt: Receipt, now: int)
    | DoReconnect(epoch: int, generation: int, now: int)
    | DoAuthorize(now: int)
    | DoLose
    | DoRevoke
    | DoTerminate

  function Next(r: Rotation, step: Step): Rotation {
    match step
    case DoPrepare(id, c, now) => Prepare(r, id, c, now)
    case DoAck(_, _, now) => Authorize(r, now)
    case DoActivate(receipt, now) => Activate(r, receipt, now)
    case DoReconnect(epoch, generation, now) => Reconnect(r, epoch, generation, now)
    case DoAuthorize(now) => Authorize(r, now)
    case DoLose => r.(lost := true, pending := None)
    case DoRevoke => Revoke(r)
    case DoTerminate => Terminate(r)
  }

  /** The call returns without an error; retrying an activation and asking for receipts need an authorized state too. */
  predicate Succeeds(r: Rotation, step: Step) {
    match step
    case DoPrepare(id, c, now) => Prepares(r, id, c, now)
    case DoAck(id, epoch, now) => PossessionAck(r, id, epoch, now).Some?
    case DoActivate(receipt, now) => Activates(r, receipt, now)
    case DoReconnect(epoch, generation, now) => Reconnects(r, epoch, generation, now)
    case DoAuthorize(now) => Authorized(r, now)
    case DoLose => true
    case DoRevoke => true
    case DoTerminate => true
  }

  predicate Initial(r: Rotation, now: int) {
    && r.session != "" && r.epoch >= 1 && r.active.Some? && Valid(r.active.value, r.session, now)
    && r == Rotation(r.session, r.epoch, r.active, None, None, "", 0, false, false, false)
  }

  ghost predicate Execution(trace: seq<Rotation>, steps: seq<Step>) {
    && |trace| == |steps| + 1 && (exists now :: Initial(trace[0], now))
    && forall i :: 0 <= i < |steps| ==> trace[i + 1] == Next(trace[i], steps[i])
  }

  // ---- What every run keeps ----

  predicate Ordered(r: Rotation) {
    && (r.active.None? <==> r.revoked || r.terminal)
    && (r.active.None? ==> r.pending.None? && r.prior.None?)
    && (r.active.Some? && r.prior.Some? ==> r.prior.value.generation < r.active.value.generation)
    && (r.active.Some? && r.pending.Some? ==> r.active.value.generation < r.pending.value.credential.generation)
  }

  /**
    In every reachable state the prior, active and pending generations rise strictly, and a revoked or
    terminal rotation holds no credential at all.
  */
  lemma {:induction false} GenerationsOrdered(trace: seq<Rotation>, steps: seq<Step>, n: nat)
    requires Execution(trace, steps) && n < |trace|
    ensures Ordered(trace[n])
    decreases n
  {
    if n > 0 {
      GenerationsOrdered(trace, steps, n - 1);
    }
  }

  /** From one state to a later one the epoch and the active generation only go up, and an active credential only
      changes by going up. */
  predicate Advances(r: Rotation, r': Rotation) {
    && r.epoch <= r'.epoch && r.session == r'.session
    && (r.active.None? ==> r'.active.None?)
    && (r.active.Some? && r'.active.Some? && r'.active != r.active ==>
          r.active.value.generation < r'.active.value.generation)
  }

  lemma StepAdvances(r: Rotation, step: Step)
    requires Ordered(r)
    ensures Advances(r, Next(r, step))
  {
  }

  lemma {:induction false} RunsAdvance(trace: seq<Rotation>, steps: seq<Step>, i: nat, j: nat)
    requires Execution(trace, steps) && i <= j < |trace|
    ensures Advances(trace[i], trace[j])
    decreases j
  {
    if i < j {
      RunsAdvance(trace, steps, i, j - 1);
      GenerationsOrdered(trace, steps, j - 1);
      StepAdvances(trace[j - 1], steps[j - 1]);
      hide Next, Ordered;
    }
  }

  /** A possession receipt issued before a reconnect never installs a credential after it. */
  lemma OldReceiptIsStale(
    trace: seq<Rotation>, steps: seq<Step>, i: nat, k: nat, j: nat, id: string, epoch: int, now: int, later: int)
    requires Execution(trace, steps) && i <= k < j < |trace|
    requires PossessionAck(trace[i], id, epoch, now).Some?
    requires steps[k].DoReconnect? && Succeeds(trace[k], steps[k])
    ensures var receipt := PossessionAck(trace[i], id, epoch, now).value;
            && !Activates(trace[j], receipt, later)
            && Next(trace[j], DoActivate(receipt, later)).active == trace[j].active
  {
    RunsAdvance(trace, steps, i, k);
    RunsAdvance(trace, steps, k + 1, j);
  }

  /** Once revoked, terminal or authority-lost, nothing restores authority: every call that needs it fails. */
  lemma {:induction false} AuthorityIsNotRestored(trace: seq<Rotation>, steps: seq<Step>, i: nat, j: nat)
    requires Execution(trace, steps) && i <= j < |trace| && !HasAuthority(trace[i])
    ensures !HasAuthority(trace[j]) && trace[j].epoch == trace[i].epoch
    ensures trace[j].active == trace[i].active || trace[j].active == None
    ensures j < |steps| && Succeeds(trace[j], steps[j]) ==>
              steps[j].DoLose? || steps[j].DoRevoke? || steps[j].DoTerminate?
    decreases j
  {
    if i < j {
      AuthorityIsNotRestored(trace, steps, i, j - 1);
    }
  }

  /** What a successful activation installs is exactly what was pending, one generation step up. */
  lemma ActivationInstallsPending(trace: seq<Rotation>, steps: seq<Step>, n: nat)
    requires Execution(trace, steps) && n < |steps| && steps[n].DoActivate? && Succeeds(trace[n], steps[n])
    ensures var r, r', receipt := trace[n], trace[n + 1], steps[n].receipt;
            && r'.active.Some? && r'.active.value.generation == receipt.generation && receipt.epoch == r'.epoch
            && (receipt.status.PendingRotation? ==>
                  r.pending.Some? && r'.active == Some(r.pending.value.credential) && r'.prior == r.active &&
                  r'.pending.None? &&
                  r'.active.value.generation > r.active.value.generation)
            && (receipt.status.ActiveRotation? ==> r' == r)
  {
    GenerationsOrdered(trace, steps, n);
  }

  /** A possession receipt activates in the state that issued it, and installs the acknowledged credential. */
  lemma ReceiptActivates(r: Rotation, id: string, epoch: int, now: int)
    requires PossessionAck(r, id, epoch, now).Some?
    ensures var receipt := PossessionAck(r, id, epoch, now).value;
            && Activates(r, receipt, now)
            && Activate(r, receipt, now).active == Some(r.pending.value.credential)
            && Activate(r, receipt, now).activeRotationId == id && Activate(r, receipt, now).epoch == epoch
  {
  }

  // ---- What every run has taken ----

  predicate Holds(r: Rotation, p: Pending) {
    r.pending == Some(p)
  }

  /** A call to prepare that is looked at: well formed, and the rotation still has its authority. */
  predicate Considered(r: Rotation, step: Step) {
    step.DoPrepare? && step.id != "" && Valid(step.credential, r.session, step.now) && HasAuthority(r) && r.active.Some?
  }

  /** Nothing is pending, or what is pending has expired. */
  predicate Free(r: Rotation, now: int) {
    r.pending.None? || r.pending.value.credential.expiresAt <= now
  }

  /** The step makes `p` the pending credential: the slot is free and its generation is a later one. */
  predicate Takes(r: Rotation, step: Step, p: Pending) {
    Considered(r, step) && p == Pending(step.id, step.credential) && Free(r, step.now) &&
    step.credential.generation > r.active.value.generation
  }

  /** The step ends what is pending: it is activated, found expired, or authority is given up. */
  predicate Ends(r: Rotation, step: Step) {
    match step
    case DoPrepare(_, _, now) => Considered(r, step) && Free(r, now)
    case DoActivate(receipt, now) => Installs(r, receipt, now)
    case DoLose => true
    case DoRevoke => true
    case DoTerminate => true
    case _ => false
  }

  lemma StepHolds(r: Rotation, step: Step, p: Pending)
    ensures Holds(Next(r, step), p) <==> Takes(r, step, p) || (Holds(r, p) && !Ends(r, step))
  {
  }

  ghost predicate TakenAt(trace: seq<Rotation>, steps: seq<Step>, j: nat, n: nat, p: Pending)
    requires j < n <= |steps| && |steps| < |trace|
  {
    Takes(trace[j], steps[j], p) && forall k :: j < k < n ==> !Ends(trace[k], steps[k])
  }

  /** A credential is pending exactly when some call took it and no later step ended it. */
  lemma {:induction false} PendingIff(trace: seq<Rotation>, steps: seq<Step>, n: nat, p: Pending)
    requires Execution(trace, steps) && n < |trace|
    ensures Holds(trace[n], p) <==> exists j: nat :: j < n && TakenAt(trace, steps, j, n, p)
    decreases n
  {
    if n > 0 {
      PendingIff(trace, steps, n - 1, p);
      var r, step := trace[n - 1], steps[n - 1];
      StepHolds(r, step, p);
      hide Next, Holds, Takes, Ends;
      if Takes(r, step, p) {
        assert TakenAt(trace, steps, n - 1, n, p);
      } else if Holds(r, p) && !Ends(r, step) {
        var j: nat :| j < n - 1 && TakenAt(trace, steps, j, n - 1, p);
        assert TakenAt(trace, steps, j, n, p);
      }
      forall j: nat | j < n && TakenAt(trace, steps, j, n, p)
        ensures Holds(trace[n], p)
      {
        assert j < n - 1 ==> TakenAt(trace, steps, j, n - 1, p);
      }
    }
  }

  /**
    A call to prepare succeeds exactly when it is looked at and the credential that is pending afterwards is the
    given one in everything but its bearer, under the given rotation ID: a first call and its retries alike.
  */
  lemma PreparedIff(r: Rotation, id: string, c: Credential, now: int)
    requires Ordered(r)
    ensures var step := DoPrepare(id, c, now);
            var pending := Next(r, step).pending;
            Succeeds(r, step) <==>
            && Considered(r, step) && pending.Some? && pending.value.id == id
            && pending.value.credential.(bearer := c.bearer) == c
  {
  }

  predicate Active(r: Rotation, c: Credential) {
    r.active == Some(c)
  }

  /** The step installs a credential: it is pending, and the receipt is exactly the one issued for it in this epoch. */
  predicate Replaces(r: Rotation, step: Step, c: Credential) {
    step.DoActivate? && Authorized(r, step.now) && r.pending.Some? && r.pending.value.credential == c &&
    c.expiresAt > step.now &&
    step.receipt == Receipt(r.pending.value.id, r.session, r.epoch, c.generation, PendingRotation)
  }

  /** The step ends the active credential: another one takes its place, or it is revoked or terminated. */
  predicate Retires(r: Rotation, step: Step) {
    || step.DoRevoke? || step.DoTerminate?
    || (r.pending.Some? && Replaces(r, step, r.pending.value.credential))
  }

  lemma StepActive(r: Rotation, step: Step, c: Credential)
    ensures Active(Next(r, step), c) <==> Replaces(r, step, c) || (Active(r, c) && !Retires(r, step))
  {
  }

  ghost predicate InUseSince(trace: seq<Rotation>, steps: seq<Step>, j: nat, n: nat, c: Credential)
    requires j <= n <= |steps| < |trace|
  {
    && (if j == 0 then trace[0].active == Some(c) else Replaces(trace[j - 1], steps[j - 1], c))
    && forall k :: j <= k < n ==> !Retires(trace[k], steps[k])
  }

  /** A credential is active exactly when it was the first one or was installed, and no later step retired it. */
  lemma {:induction false} ActiveIff(trace: seq<Rotation>, steps: seq<Step>, n: nat, c: Credential)
    requires Execution(trace, steps) && n < |trace|
    ensures Active(trace[n], c) <==> exists j: nat :: j <= n && InUseSince(trace, steps, j, n, c)
    decreases n
  {
    if n == 0 {
      assert InUseSince(trace, steps, 0, 0, c) == Active(trace[0], c);
    } else {
      ActiveIff(trace, steps, n - 1, c);
      var r, step := trace[n - 1], steps[n - 1];
      StepActive(r, step, c);
      hide Next, Active, Replaces, Retires;
      if Replaces(r, step, c) {
        assert InUseSince(trace, steps, n, n, c);
      } else if Active(r, c) && !Retires(r, step) {
        var j: nat :| j <= n - 1 && InUseSince(trace, steps, j, n - 1, c);
        assert InUseSince(trace, steps, j, n, c);
      }
      forall j: nat | j <= n && InUseSince(trace, steps, j, n, c)
        ensures Active(trace[n], c)
      {
        assert j < n ==> InUseSince(trace, steps, j, n - 1, c);
      }
    }
  }

  /** The step moves to its epoch: a higher one, for the active generation, under live authority. */
  predicate Raises(r: Rotation, step: Step) {
    step.DoReconnect? && HasAuthority(r) && r.active.Some? && r.active.value.expiresAt > step.now &&
    step.generation == r.active.value.generation >= 1 && step.epoch > r.epoch && step.epoch >= 1
  }

  ghost predicate RaisedAt(trace: seq<Rotation>, steps: seq<Step>, j: nat, epoch: int)
    requires j < |steps| < |trace|
  {
    Raises(trace[j], steps[j]) && steps[j].epoch >= epoch
  }

  /** The epoch has reached a value exactly when the first one or that of a reconnect that was taken has. */
  lemma {:induction false} EpochIff(trace: seq<Rotation>, steps: seq<Step>, n: nat, epoch: int)
    requires Execution(trace, steps) && n < |trace|
    ensures trace[n].epoch >= epoch <==>
            trace[0].epoch >= epoch || exists j: nat :: j < n && RaisedAt(trace, steps, j, epoch)
    decreases n
  {
    if n > 0 {
      EpochIff(trace, steps, n - 1, epoch);
      var r, step := trace[n - 1], steps[n - 1];
      assert trace[n].epoch == if Raises(r, step) then step.epoch else r.epoch;
      assert RaisedAt(trace, steps, n - 1, epoch) == (Raises(r, step) && step.epoch >= epoch);
      hide Next, Raises, RaisedAt;
    }
  }

  /** The step gives authority up: it says so, or it finds the active credential expired. */
  predicate GivesUp(r: Rotation, step: Step) {
    match step
    case DoPrepare(_, _, _) => false
    case DoAck(_, _, now) => Stale(r, now)
    case DoActivate(_, now) => Stale(r, now)
    case DoReconnect(epoch, generation, now) => epoch >= 1 && generation >= 1 && Stale(r, now)
    case DoAuthorize(now) => Stale(r, now)
    case DoLose => true
    case DoRevoke => true
    case DoTerminate => true
  }

  predicate Stale(r: Rotation, now: int) {
    r.active.Some? && r.active.value.expiresAt <= now
  }

  ghost predicate GivenUpAt(trace: seq<Rotation>, steps: seq<Step>, j: nat)
    requires j < |steps| < |trace|
  {
    GivesUp(trace[j], steps[j])
  }

  /** Authority lasts exactly until the first step that gives it up. */
  lemma {:induction false} AuthorityIff(trace: seq<Rotation>, steps: seq<Step>, n: nat)
    requires Execution(trace, steps) && n < |trace|
    ensures HasAuthority(trace[n]) <==> forall j: nat :: j < n ==> !GivenUpAt(trace, steps, j)
    decreases n
  {
    if n > 0 {
      AuthorityIff(trace, steps, n - 1);
      var r, step := trace[n - 1], steps[n - 1];
      StepGivesUp(r, step);
      assert GivenUpAt(trace, steps, n - 1) == GivesUp(r, step);
      hide Next, HasAuthority, GivesUp, GivenUpAt;
    }
  }

  lemma StepGivesUp(r: Rotation, step: Step)
    ensures HasAuthority(Next(r, step)) <==> HasAuthority(r) && !GivesUp(r, step)
  {
  }

  /**
    A rotation that nothing interferes with completes: the next generation is taken, its receipt is issued, and
    the receipt installs it, with the credential it replaces kept as the prior one.
  */
  lemma RotationCompletes(r: Rotation, id: string, c: Credential, now: int)
    requires Authorized(r, now) && id != "" && Valid(c, r.session, now) && Free(r, now)
    requires c.generation > r.active.value.generation
    ensures var prepared := Next(r, DoPrepare(id, c, now));
            var receipt := PossessionAck(prepared, id, r.epoch, now);
            && Succeeds(r, DoPrepare(id, c, now)) && receipt.Some?
            && Succeeds(prepared, DoActivate(receipt.value, now))
            && Next(prepared, DoActivate(receipt.value, now)) ==
               r.(active := Some(c), prior := r.active, pending := None, activeRotationId := id,
                  recoveryUntil := now + RECOVERY_WINDOW)
  {
  }

  // ---- The calls as they update the fields ----

  class CredentialRotationState {
    const session: string
    var epoch: int
    var active: Option<Credential>
    var prior: Option<Credential>
    var pending: Option<Pending>
    var activeRotationId: string
    var recoveryUntil: int
    var revoked: bool
    var terminal: bool
    var lost: bool

    function View(): Rotation
      reads this
    {
      Rotation(session, epoch, active, prior, pending, activeRotationId, recoveryUntil, revoked, terminal, lost)
    }

    constructor (session: string, initial: Credential, epoch: int, ghost now: int)
      requires session != "" && epoch >= 1 && Valid(initial, session, now)
      ensures Initial(View(), now) && active == Some(initial) && this.epoch == epoch && this.session == session
    {
      this.session, this.epoch, active := session, epoch, Some(initial);
      prior, pending, activeRotationId, recoveryUntil := None, None, "", 0;
      revoked, terminal, lost := false, false, false;
    }

    method CheckAuthorized(now: int) returns (ok: bool)
      modifies this`lost
      ensures View() == Authorize(old(View()), now)
      ensures ok == Authorized(old(View()), now)
    {
      if revoked || terminal || lost || active.None? {
        return false;
      }
      if active.value.expiresAt <= now {
        lost := true;
        return false;
      }
      return true;
    }

    method PrepareRotation(id: string, c: Credential, now: int) returns (ok: bool)
      requires Ordered(View())
      modifies this`pending
      ensures View() == Prepare(old(View()), id, c, now) && Ordered(View())
      ensures ok == Prepares(old(View()), id, c, now)
    {
      if id == "" || !Valid(c, session, now) || revoked || terminal || lost {
        return false;
      }
      if pending.Some? && pending.value.credential.expiresAt <= now {
        pending := None;
      }
      if pending.Some? {
        return pending.value.id == id && SameMetadata(pending.value.credential, c);
      }
      if c.generation <= active.value.generation {
        return false;
      }
      pending := Some(Pending(id, c));
      return true;
    }

    method Acknowledge(id: string, acceptedEpoch: int, now: int) returns (r: Option<Receipt>)
      modifies this`lost
      ensures View() == Authorize(old(View()), now)
      ensures r == PossessionAck(old(View()), id, acceptedEpoch, now)
    {
      var ok := CheckAuthorized(now);
      if !ok || pending.None? || pending.value.id != id || acceptedEpoch != epoch ||
         pending.value.credential.expiresAt <= now {
        return None;
      }
      return Some(Receipt(id, session, epoch, pending.value.credential.generation, PendingRotation));
    }

    method ActivateRotation(receipt: Receipt, now: int) returns (ok: bool)
      requires Ordered(View())
      modifies this
      ensures View() == Activate(old(View()), receipt, now) && Ordered(View())
      ensures ok == Activates(old(View()), receipt, now)
    {
      ok := CheckAuthorized(now);
      if !ok {
        return false;
      }
      if receipt.rotationId != "" && activeRotationId == receipt.rotationId && receipt.status.ActiveRotation? {
        return receipt.session == session && receipt.epoch == epoch && receipt.generation == active.value.generation;
      }
      if pending.None? || receipt.rotationId != pending.value.id || receipt.session != session ||
         receipt.epoch != epoch || receipt.status != PendingRotation {
        return false;
      }
      if pending.value.credential.expiresAt <= now || pending.value.credential.generation != receipt.generation {
        return false;
      }
      prior := active;
      recoveryUntil := now + RECOVERY_WINDOW;
      active := Some(pending.value.credential);
      pending := None;
      activeRotationId := receipt.rotationId;
      return true;
    }

    method ReconnectAt(newEpoch: int, generation: int, now: int) returns (ok: bool)
      requires Ordered(View())
      modifies this
      ensures View() == Reconnect(old(View()), newEpoch, generation, now) && Ordered(View())
      ensures ok == Reconnects(old(View()), newEpoch, generation, now)
    {
      if newEpoch < 1 || generation < 1 {
        return false;
      }
      ok := CheckAuthorized(now);
      if !ok || generation != active.value.generation || newEpoch <= epoch {
        return false;
      }
      epoch := newEpoch;
      lost := false;
      return true;
    }
  }
}
