/**
  Changing a Session's settings: the adapter applies the requested values one after another through a
  provider that may answer anything, and the Hub records the outcome of what was published. Also the
  bounded application of launch settings.
*/
module SettingsChange {
  import opened Wrappers

  datatype Kind = Model | Effort | Permission

  /** The values in effect. */
  datatype Tuple = Tuple(model: string, effort: Option<string>, permission: string)

  /** The values asked for; what is left out stays as it was reserved. */
  datatype Change = Change(model: Option<string>, effort: Option<string>, permission: Option<string>)

  /** What the provider last advertised and reported. */
  datatype State = State(
    fingerprint: string, effective: Tuple, allowed: set<Kind>, configured: set<Kind>,
    models: set<string>, efforts: set<string>, permissions: set<string>)

  datatype Outcome = Applied | Rejected | Stale | Mismatched | Unknown

  function Requested(change: Change, kind: Kind): Option<string> {
    match kind
    case Model => change.model
    case Effort => change.effort
    case Permission => change.permission
  }

  function Current(t: Tuple, kind: Kind): Option<string> {
    match kind
    case Model => Some(t.model)
    case Effort => t.effort
    case Permission => Some(t.permission)
  }

  function Choices(s: State, kind: Kind): set<string> {
    match kind
    case Model => s.models
    case Effort => s.efforts
    case Permission => s.permissions
  }

  /** The request laid over the reserved values. */
  function Overlay(change: Change, reserved: Tuple): Tuple {
    Tuple(if change.model.Some? then change.model.value else reserved.model,
          if change.effort.Some? then change.effort else reserved.effort,
          if change.permission.Some? then change.permission.value else reserved.permission)
  }

  // ---- The adapter ----

  /** How the provider answered one operation; a state is what was known after it. */
  datatype Reply =
    | Updated(state: State)
    | Superseded(state: State)
    | CapabilityChanged(state: State)
    | ProviderRejected
    | TimedOut
    | Unprovable

  /** `outcome` is what is published, if anything is. */
  datatype Execution = Execution(state: State, outcome: Option<Outcome>, terminate: bool)

  datatype Stage = Go(state: State, applied: bool) | Stop(execution: Execution)

  function Publish(state: State, outcome: Outcome): Execution {
    Execution(state, Some(outcome), false)
  }

  function Failed(reply: Reply, state: State, reserved: State, applied: bool): Execution {
    if reply.ProviderRejected? then
      if applied then Publish(state, Mismatched) else Publish(reserved, Rejected)
    else Execution(state, None, true)
  }

  /** One requested value; only the model is sent without being checked against the choices. */
  function RunKind(kind: Kind, change: Change, reserved: State, state: State, applied: bool, reply: Reply): Stage {
    var requested := Requested(change, kind);
    if requested.None? || Current(state.effective, kind) == requested then Go(state, applied)
    else if kind !in state.allowed || kind !in state.configured ||
            (kind != Model && requested.value !in Choices(state, kind)) then
      Stop(Publish(state, Mismatched))
    else
      match reply
      case Updated(s) => Go(s, true)
      case Superseded(s) => Stop(Publish(s, Mismatched))
      case CapabilityChanged(s) => Stop(Publish(s, if applied then Mismatched else Stale))
      case ProviderRejected => Stop(Failed(reply, state, reserved, applied))
      case TimedOut => Stop(Failed(reply, state, reserved, applied))
      case Unprovable => Stop(Failed(reply, state, reserved, applied))
  }

  predicate Matches(change: Change, reserved: Tuple, effective: Tuple) {
    && (if change.model.None? then effective.model == reserved.model else effective.model == change.model.value)
    && (if change.effort.None? then effective.effort == reserved.effort
        else effective.effort.Some? && effective.effort.value == change.effort.value)
    && (if change.permission.None? then effective.permission == reserved.permission
        else effective.permission == change.permission.value)
  }

  function Execute(change: Change, reserved: State, current: Option<State>, replies: Kind -> Reply): Execution {
    if current.None? then Execution(reserved, None, true)
    else if current.value.fingerprint != reserved.fingerprint then Publish(current.value, Stale)
    else
      var first := RunKind(Model, change, reserved, current.value, false, replies(Model));
      if first.Stop? then first.execution
      else
        var second := RunKind(Effort, change, reserved, first.state, first.applied, replies(Effort));
        if second.Stop? then second.execution
        else
          var third := RunKind(Permission, change, reserved, second.state, second.applied, replies(Permission));
          if third.Stop? then third.execution
          else
            var outcome := if Matches(change, reserved.effective, third.state.effective) then Applied else Mismatched;
            Publish(third.state, outcome)
  }

  /** Before publishing: when the capability moved on meanwhile, the result is about the newer one. */
  function Reconcile(execution: Execution, current: State): Execution {
    if execution.outcome.None? || execution.state.fingerprint == current.fingerprint then execution
    else
      execution.(state := current,
                 outcome := if execution.outcome == Some(Stale) then Some(Stale) else Some(Mismatched))
  }

  // ---- The Hub ----

  /** What the Hub records, given the capability it now holds for the Session. */
  function Finalize(change: Change, reserved: Tuple, held: Tuple, outcome: Outcome): Outcome {
    if outcome == Applied then if Matches(change, reserved, held) then Applied else Mismatched
    else if outcome != Unknown && outcome != Mismatched && held == reserved then outcome
    else if outcome == Unknown || outcome == Mismatched then outcome
    else Mismatched
  }

  // ---- Properties ----

  lemma MatchesIsOverlay(change: Change, reserved: Tuple, effective: Tuple)
    ensures Matches(change, reserved, effective) <==> effective == Overlay(change, reserved)
  {
  }

  /**
    The recorded outcome is the adapter's or a mismatch; applied is recorded exactly when the adapter said
    so and the values in effect are the request laid over the reserved ones; rejected and stale exactly
    when the adapter said so and nothing moved.
  */
  lemma RecordedOutcome(change: Change, reserved: Tuple, held: Tuple, outcome: Outcome)
    ensures var recorded := Finalize(change, reserved, held, outcome);
            && (recorded == outcome || recorded == Mismatched)
            && (recorded == Applied <==> outcome == Applied && held == Overlay(change, reserved))
            && (recorded == Rejected <==> outcome == Rejected && held == reserved)
            && (recorded == Stale <==> outcome == Stale && held == reserved)
            && (recorded == Unknown <==> outcome == Unknown)
  {
    MatchesIsOverlay(change, reserved, held);
  }

  /** A stage that stops never claims success. */
  lemma StopIsNotApplied(kind: Kind, change: Change, reserved: State, state: State, applied: bool, reply: Reply)
    ensures var stage := RunKind(kind, change, reserved, state, applied, reply);
            stage.Stop? ==> stage.execution.outcome != Some(Applied) && stage.execution.outcome != Some(Unknown) &&
                            (stage.execution.outcome.None? ==> stage.execution.terminate) &&
                            (stage.execution.outcome == Some(Rejected) ==> stage.execution.state == reserved)
  {
  }

  /** Whatever the provider answers: an execution published as applied reports exactly the requested values. */
  lemma AppliedMeansOverlay(change: Change, reserved: State, current: Option<State>, replies: Kind -> Reply)
    ensures var e := Execute(change, reserved, current, replies);
            && (e.outcome == Some(Applied) ==> e.state.effective == Overlay(change, reserved.effective))
            && (e.outcome.None? ==> e.terminate)
            && (e.outcome == Some(Rejected) ==> e.state == reserved)
  {
    if current.Some? && current.value.fingerprint == reserved.fingerprint {
      StopIsNotApplied(Model, change, reserved, current.value, false, replies(Model));
      var first := RunKind(Model, change, reserved, current.value, false, replies(Model));
      hide RunKind;
      if first.Go? {
        StopIsNotApplied(Effort, change, reserved, first.state, first.applied, replies(Effort));
        var second := RunKind(Effort, change, reserved, first.state, first.applied, replies(Effort));
        if second.Go? {
          StopIsNotApplied(Permission, change, reserved, second.state, second.applied, replies(Permission));
          var third := RunKind(Permission, change, reserved, second.state, second.applied, replies(Permission));
          if third.Go? {
            MatchesIsOverlay(change, reserved.effective, third.state.effective);
          }
        }
      }
    }
  }

  /** The value of this kind was asked for and is not in effect. */
  predicate Needed(change: Change, s: State, kind: Kind) {
    Requested(change, kind).Some? && Current(s.effective, kind) != Requested(change, kind)
  }

  predicate FirstNeeded(change: Change, s: State, kind: Kind) {
    match kind
    case Model => true
    case Effort => !Needed(change, s, Model)
    case Permission => !Needed(change, s, Model) && !Needed(change, s, Effort)
  }

  /** The provider may be asked for the value: the control is open and, except for the model, offers it. */
  predicate Sendable(change: Change, s: State, kind: Kind)
    requires Requested(change, kind).Some?
  {
    kind in s.allowed && kind in s.configured && (kind == Model || Requested(change, kind).value in Choices(s, kind))
  }

  /** The first operation that is needed is sent, and this is how the provider answers it. */
  predicate FirstAnswer(change: Change, s: State, replies: Kind -> Reply, kind: Kind, reply: Reply) {
    Needed(change, s, kind) && FirstNeeded(change, s, kind) && Sendable(change, s, kind) && replies(kind) == reply
  }

  /**
    Published as rejected, or as stale against an unchanged fingerprint, exactly when the first operation that
    was needed is the one that failed: nothing had been changed before it.
  */
  lemma UntouchedOutcomes(change: Change, reserved: State, current: State, replies: Kind -> Reply)
    requires current.fingerprint == reserved.fingerprint
    ensures var e := Execute(change, reserved, Some(current), replies);
            && (e.outcome == Some(Rejected) <==>
                  exists kind :: FirstAnswer(change, current, replies, kind, ProviderRejected))
            && (e.outcome == Some(Stale) <==>
                  exists kind, s :: FirstAnswer(change, current, replies, kind, CapabilityChanged(s)))
  {
    var first := if Needed(change, current, Model) then Model
                 else if Needed(change, current, Effort) then Effort
                 else Permission;
    assert FirstNeeded(change, current, first);
    OnlyFirst(change, current, replies, first);
    var stage := RunKind(first, change, reserved, current, false, replies(first));
    if stage.Go? {
      LaterStages(change, reserved, current, replies, first);
    } else {
      assert Execute(change, reserved, Some(current), replies) == stage.execution;
    }
    if Needed(change, current, first) && Sendable(change, current, first) {
      assert FirstAnswer(change, current, replies, first, replies(first));
      assert replies(first).CapabilityChanged? ==>
               FirstAnswer(change, current, replies, first, CapabilityChanged(replies(first).state));
    }
  }

  lemma OnlyFirst(change: Change, current: State, replies: Kind -> Reply, first: Kind)
    requires FirstNeeded(change, current, first)
    requires Needed(change, current, first) || first == Permission
    ensures forall kind, reply :: FirstAnswer(change, current, replies, kind, reply) ==> kind == first
  {
  }

  /** Once the first operation succeeded, the outcome is neither rejected nor stale. */
  lemma LaterStages(change: Change, reserved: State, current: State, replies: Kind -> Reply, first: Kind)
    requires current.fingerprint == reserved.fingerprint && FirstNeeded(change, current, first)
    requires Needed(change, current, first) || first == Permission
    requires RunKind(first, change, reserved, current, false, replies(first)).Go?
    ensures var e := Execute(change, reserved, Some(current), replies);
            e.outcome != Some(Rejected) && e.outcome != Some(Stale)
  {
  }

  /**
    Anything but a mismatch is published only if the first needed value could be changed in the state that was
    current.
  */
  lemma FirstOperationWasAllowed(change: Change, reserved: State, current: State, replies: Kind -> Reply, kind: Kind)
    requires current.fingerprint == reserved.fingerprint && Needed(change, current, kind)
    requires FirstNeeded(change, current, kind)
    ensures var e := Execute(change, reserved, Some(current), replies);
            e.outcome.Some? && e.outcome != Some(Mismatched) ==>
              kind in current.allowed && kind in current.configured &&
              (kind != Model ==> Requested(change, kind).value in Choices(current, kind)) &&
              (e.outcome == Some(Applied) ==> replies(kind).Updated?)
  {
    assert RunKind(Model, change, reserved, current, false, replies(Model)) == Go(current, false) || kind == Model;
  }

  /** This value needs no operation, or the provider is asked for it and reports new values. */
  predicate Passes(change: Change, s: State, replies: Kind -> Reply, kind: Kind) {
    Needed(change, s, kind) ==> Sendable(change, s, kind) && replies(kind).Updated?
  }

  /** What is known once this value was dealt with. */
  function After(change: Change, s: State, replies: Kind -> Reply, kind: Kind): State
    requires Passes(change, s, replies, kind)
  {
    if Needed(change, s, kind) then replies(kind).state else s
  }

  /** All three values pass one after another, and the values reported last are the request over the reserved ones. */
  predicate Succeeds(change: Change, reserved: State, current: State, replies: Kind -> Reply) {
    && Passes(change, current, replies, Model)
    && Passes(change, After(change, current, replies, Model), replies, Effort)
    && var second := After(change, After(change, current, replies, Model), replies, Effort);
       Passes(change, second, replies, Permission) &&
       After(change, second, replies, Permission).effective == Overlay(change, reserved.effective)
  }

  lemma StagePasses(
    change: Change, reserved: State, state: State, applied: bool, replies: Kind -> Reply, kind: Kind)
    ensures var stage := RunKind(kind, change, reserved, state, applied, replies(kind));
            && (stage.Go? <==> Passes(change, state, replies, kind))
            && (stage.Go? ==> stage.state == After(change, state, replies, kind))
  {
  }

  /** Published as applied exactly when the reservation is current and every value passes to the requested end. */
  lemma AppliedIff(change: Change, reserved: State, current: Option<State>, replies: Kind -> Reply)
    ensures Execute(change, reserved, current, replies).outcome == Some(Applied) <==>
            current.Some? && current.value.fingerprint == reserved.fingerprint &&
            Succeeds(change, reserved, current.value, replies)
  {
    if current.Some? && current.value.fingerprint == reserved.fingerprint {
      StagePasses(change, reserved, current.value, false, replies, Model);
      StopIsNotApplied(Model, change, reserved, current.value, false, replies(Model));
      var first := RunKind(Model, change, reserved, current.value, false, replies(Model));
      hide RunKind, Passes, After;
      if first.Go? {
        StagePasses(change, reserved, first.state, first.applied, replies, Effort);
        StopIsNotApplied(Effort, change, reserved, first.state, first.applied, replies(Effort));
        var second := RunKind(Effort, change, reserved, first.state, first.applied, replies(Effort));
        if second.Go? {
          StagePasses(change, reserved, second.state, second.applied, replies, Permission);
          StopIsNotApplied(Permission, change, reserved, second.state, second.applied, replies(Permission));
          var third := RunKind(Permission, change, reserved, second.state, second.applied, replies(Permission));
          if third.Go? {
            MatchesIsOverlay(change, reserved.effective, third.state.effective);
          }
        }
      }
    }
  }

  /** The values before this one pass, this one is sent to the provider, and it does not report new values. */
  predicate FailsAt(change: Change, s: State, replies: Kind -> Reply, kind: Kind) {
    match kind
    case Model => Fails(change, s, replies, Model)
    case Effort => Passes(change, s, replies, Model) && Fails(change, After(change, s, replies, Model), replies, Effort)
    case Permission =>
      && Passes(change, s, replies, Model)
      && Passes(change, After(change, s, replies, Model), replies, Effort)
      && Fails(change, After(change, After(change, s, replies, Model), replies, Effort), replies, Permission)
  }

  predicate Fails(change: Change, s: State, replies: Kind -> Reply, kind: Kind) {
    Needed(change, s, kind) && Sendable(change, s, kind) && !replies(kind).Updated?
  }

  /** The reply leaves it open what is in effect now. */
  predicate LeavesOpen(reply: Reply) {
    reply.TimedOut? || reply.Unprovable?
  }

  /**
    Nothing is published, and the Session is terminated, exactly when the current values are not known or an
    operation left open what is in effect.
  */
  lemma SilentIff(change: Change, reserved: State, current: Option<State>, replies: Kind -> Reply)
    ensures var e := Execute(change, reserved, current, replies);
            && (e.outcome.None? <==> e.terminate)
            && (e.terminate <==>
                  || current.None?
                  || (current.value.fingerprint == reserved.fingerprint &&
                      exists kind :: FailsAt(change, current.value, replies, kind) && LeavesOpen(replies(kind))))
  {
    if current.Some? && current.value.fingerprint == reserved.fingerprint {
      if kind :| FailsAt(change, current.value, replies, kind) {
        FailedOperation(change, reserved, current.value, replies, kind);
        OneFails(change, current.value, replies, kind);
      } else {
        NoOperationFails(change, reserved, current.value, replies);
      }
    }
  }

  lemma OneFails(change: Change, s: State, replies: Kind -> Reply, kind: Kind)
    requires FailsAt(change, s, replies, kind)
    ensures forall other :: FailsAt(change, s, replies, other) ==> other == kind
  {
  }

  /** What is published after a failed operation is about the newest values that the provider reported. */
  lemma FailedOperation(change: Change, reserved: State, current: State, replies: Kind -> Reply, kind: Kind)
    requires current.fingerprint == reserved.fingerprint && FailsAt(change, current, replies, kind)
    ensures var e, reply := Execute(change, reserved, Some(current), replies), replies(kind);
            && (e.terminate <==> LeavesOpen(reply)) && (e.outcome.None? <==> LeavesOpen(reply))
            && (reply.Superseded? ==> e == Execution(reply.state, Some(Mismatched), false))
            && (reply.CapabilityChanged? ==>
                  e.state == reply.state && e.outcome in {Some(Stale), Some(Mismatched)})
            && (reply.ProviderRejected? ==> e.outcome in {Some(Rejected), Some(Mismatched)})
  {
  }

  lemma NoOperationFails(change: Change, reserved: State, current: State, replies: Kind -> Reply)
    requires current.fingerprint == reserved.fingerprint
    requires forall kind :: !FailsAt(change, current, replies, kind)
    ensures var e := Execute(change, reserved, Some(current), replies);
            e.outcome in {Some(Applied), Some(Mismatched)} && !e.terminate
  {
    assert !FailsAt(change, current, replies, Model) && !FailsAt(change, current, replies, Effort);
    assert !FailsAt(change, current, replies, Permission);
  }

  /** What is known once this value was dealt with, also when that fails. */
  function Seen(change: Change, s: State, replies: Kind -> Reply, kind: Kind): State {
    var reply := replies(kind);
    if !Needed(change, s, kind) || !Sendable(change, s, kind) then s
    else if reply.Updated? || reply.Superseded? || reply.CapabilityChanged? then reply.state
    else s
  }

  /** The newest state known when the values are dealt with in turn, up to the first that does not pass. */
  function NewestSeen(change: Change, s: State, replies: Kind -> Reply): State {
    var first := Seen(change, s, replies, Model);
    var second := Seen(change, first, replies, Effort);
    if !Passes(change, s, replies, Model) then first
    else if !Passes(change, first, replies, Effort) then second
    else Seen(change, second, replies, Permission)
  }

  /**
    What is published is about the newest state known, whatever the outcome, except that a rejected change is
    published with the reserved state; a reservation that is no longer current is stale, with nothing sent.
  */
  lemma PublishedState(change: Change, reserved: State, current: State, replies: Kind -> Reply)
    ensures var e := Execute(change, reserved, Some(current), replies);
            if current.fingerprint != reserved.fingerprint then e == Execution(current, Some(Stale), false)
            else e.outcome.Some? ==>
                   e.state == if e.outcome == Some(Rejected) then reserved else NewestSeen(change, current, replies)
  {
    if current.fingerprint == reserved.fingerprint {
      StageState(change, reserved, current, false, replies, Model);
      var first := RunKind(Model, change, reserved, current, false, replies(Model));
      hide RunKind, Passes, Seen;
      if first.Go? {
        StageState(change, reserved, first.state, first.applied, replies, Effort);
        var second := RunKind(Effort, change, reserved, first.state, first.applied, replies(Effort));
        if second.Go? {
          StageState(change, reserved, second.state, second.applied, replies, Permission);
        }
      }
    }
  }

  lemma StageState(
    change: Change, reserved: State, state: State, applied: bool, replies: Kind -> Reply, kind: Kind)
    ensures var stage, seen := RunKind(kind, change, reserved, state, applied, replies(kind)),
                               Seen(change, state, replies, kind);
            && (stage.Go? <==> Passes(change, state, replies, kind)) && (stage.Go? ==> stage.state == seen)
            && (stage.Stop? && stage.execution.outcome.Some? ==>
                  stage.execution.outcome != Some(Applied) &&
                  stage.execution.state == if stage.execution.outcome == Some(Rejected) then reserved else seen)
  {
  }

  /** The state with one value replaced. */
  function WithValue(s: State, kind: Kind, value: string): State {
    s.(effective := match kind
       case Model => s.effective.(model := value)
       case Effort => s.effective.(effort := Some(value))
       case Permission => s.effective.(permission := value))
  }

  /** A provider that changes exactly what it is asked to, one value after another. */
  function Faithful(change: Change, current: State): Kind -> Reply {
    var first := if Needed(change, current, Model) then WithValue(current, Model, change.model.value) else current;
    var second := if Needed(change, current, Effort) then WithValue(first, Effort, change.effort.value) else first;
    (kind: Kind) => match kind
      case Model => Updated(first)
      case Effort => Updated(second)
      case Permission =>
        Updated(if Needed(change, current, Permission) then WithValue(second, Permission, change.permission.value)
                else second)
  }

  /**
    With a provider that does what it is asked, a change is applied exactly when the reservation is current,
    every value it still needs may be asked for, and what it leaves out is in effect as it was reserved.
  */
  lemma FaithfulProviderApplies(change: Change, reserved: State, current: State)
    ensures Execute(change, reserved, Some(current), Faithful(change, current)).outcome == Some(Applied) <==>
            && current.fingerprint == reserved.fingerprint
            && (forall kind: Kind :: Needed(change, current, kind) ==> Sendable(change, current, kind))
            && Overlay(change, current.effective) == Overlay(change, reserved.effective)
  {
    var replies := Faithful(change, current);
    AppliedIff(change, reserved, Some(current), replies);
    hide Execute;
    if current.fingerprint == reserved.fingerprint && Passes(change, current, replies, Model) {
      FaithfulStages(change, current);
    }
  }

  lemma FaithfulStages(change: Change, current: State)
    requires Passes(change, current, Faithful(change, current), Model)
    ensures var replies := Faithful(change, current);
            var first := After(change, current, replies, Model);
            && (Passes(change, first, replies, Effort) <==>
                  (Needed(change, current, Effort) ==> Sendable(change, current, Effort)))
            && (Passes(change, first, replies, Effort) ==>
                  var second := After(change, first, replies, Effort);
                  && (Passes(change, second, replies, Permission) <==>
                        (Needed(change, current, Permission) ==> Sendable(change, current, Permission)))
                  && (Passes(change, second, replies, Permission) ==>
                        After(change, second, replies, Permission).effective == Overlay(change, current.effective)))
  {
  }

  /**
    What is published once it was reconciled: applied exactly when the execution was and the capability did not
    move on meanwhile, and then about the state that was reached; otherwise about the newer capability.
  */
  lemma ReconcileLaw(execution: Execution, current: State)
    ensures var e := Reconcile(execution, current);
            && (e.outcome == Some(Applied) <==>
                  execution.outcome == Some(Applied) && execution.state.fingerprint == current.fingerprint)
            && (e.outcome == Some(Stale) <==> execution.outcome == Some(Stale))
            && (e.outcome.None? <==> execution.outcome.None?) && e.terminate == execution.terminate
            && (e.outcome.Some? ==> e.state.fingerprint == current.fingerprint)
            && (e.state != execution.state ==> e.state == current && e.outcome in {Some(Stale), Some(Mismatched)})
  {
  }

  /**
    End to end: what the adapter publishes as applied, after reconciling with whatever capability is
    current, the Hub records as applied, given the same reservation and the published values in effect.
  */
  lemma AppliedIsRecorded(change: Change, reserved: State, current: Option<State>, replies: Kind -> Reply, now: State)
    ensures var e := Reconcile(Execute(change, reserved, current, replies), now);
            e.outcome == Some(Applied) ==> Finalize(change, reserved.effective, e.state.effective, Applied) == Applied
  {
    AppliedMeansOverlay(change, reserved, current, replies);
    var e := Reconcile(Execute(change, reserved, current, replies), now);
    hide Execute;
    RecordedOutcome(change, reserved.effective, e.state.effective, Applied);
  }

  // ---- Launch settings ----

  const LAUNCH_ATTEMPTS := 2

  datatype Mutation = Mutation(kind: Kind, value: string)

  datatype Attempts = Attempts(model: nat, effort: nat, permission: nat) {
    function Of(kind: Kind): nat {
      match kind
      case Model => model
      case Effort => effort
      case Permission => permission
    }

    function Add(kind: Kind): Attempts {
      match kind
      case Model => this.(model := model + 1)
      case Effort => this.(effort := effort + 1)
      case Permission => this.(permission := permission + 1)
    }

    function Total(): nat {
      model + effort + permission
    }

    predicate WithinBound() {
      model <= LAUNCH_ATTEMPTS && effort <= LAUNCH_ATTEMPTS && permission <= LAUNCH_ATTEMPTS
    }
  }

  /** Launch settings ask for a value by naming it; the empty string asks for nothing. */
  function Wanted(settings: Change, kind: Kind): string {
    var requested := Requested(settings, kind);
    if requested.None? then "" else requested.value
  }

  predicate Changeable(s: State, settings: Change, kind: Kind) {
    Wanted(settings, kind) != "" && kind in s.allowed && Wanted(settings, kind) in Choices(s, kind) &&
    kind in s.configured
  }

  /** The value is still owed: it can be changed, is not in effect and was not tried too often. */
  predicate Owed(s: State, settings: Change, attempts: Attempts, kind: Kind) {
    Changeable(s, settings, kind) && Current(s.effective, kind) != Some(Wanted(settings, kind)) &&
    attempts.Of(kind) < LAUNCH_ATTEMPTS
  }

  function NextMutation(s: State, settings: Change, attempts: Attempts): Option<Mutation> {
    if Owed(s, settings, attempts, Model) then Some(Mutation(Model, Wanted(settings, Model)))
    else if Owed(s, settings, attempts, Effort) then Some(Mutation(Effort, Wanted(settings, Effort)))
    else if Owed(s, settings, attempts, Permission) then Some(Mutation(Permission, Wanted(settings, Permission)))
    else None
  }

  /** Every requested value is in effect, cannot be changed, or was tried as often as allowed. */
  predicate Settled(s: State, settings: Change, attempts: Attempts) {
    forall kind: Kind :: Changeable(s, settings, kind) ==>
      Current(s.effective, kind) == Some(Wanted(settings, kind)) || attempts.Of(kind) == LAUNCH_ATTEMPTS
  }

  lemma NextMutationLaw(s: State, settings: Change, attempts: Attempts)
    requires attempts.WithinBound()
    ensures var m := NextMutation(s, settings, attempts);
            && (m.None? ==> Settled(s, settings, attempts))
            && (m.Some? ==> Owed(s, settings, attempts, m.value.kind) &&
                            m.value.value == Wanted(settings, m.value.kind) != "" &&
                            attempts.Add(m.value.kind).WithinBound() &&
                            attempts.Add(m.value.kind).Total() == attempts.Total() + 1)
  {
    forall kind: Kind | NextMutation(s, settings, attempts).None?
      ensures !Owed(s, settings, attempts, kind) && attempts.Of(kind) <= LAUNCH_ATTEMPTS
    {
    }
  }

  /** Every request sent asks for a wanted value. */
  ghost predicate OnlyWanted(settings: Change, sent: seq<Mutation>) {
    forall i :: 0 <= i < |sent| ==> sent[i].value == Wanted(settings, sent[i].kind) && sent[i].value != ""
  }

  lemma OnlyWantedGrows(settings: Change, sent: seq<Mutation>, m: Mutation)
    ensures sent == [] ==> OnlyWanted(settings, sent)
    ensures OnlyWanted(settings, sent) && m.value == Wanted(settings, m.kind) && m.value != "" ==>
              OnlyWanted(settings, sent + [m])
  {
    hide Wanted;
  }

  /**
    Applies launch settings through a provider that answers anything: `answers` are the states read back,
    up to the first request that fails. It sends at most two requests of each kind and otherwise ends with
    every value settled.
  */
  method ApplyLaunchSettings(initial: State, settings: Change, answers: seq<State>)
    returns (s: State, sent: seq<Mutation>, attempts: Attempts, early: bool)
    ensures attempts.WithinBound() && |sent| == attempts.Total() <= 3 * LAUNCH_ATTEMPTS
    ensures OnlyWanted(settings, sent)
    ensures !early ==> Settled(s, settings, attempts)
  {
    OnlyWantedGrows(settings, [], Mutation(Model, ""));
    hide NextMutation, Settled, Wanted, OnlyWanted;
    s, sent, attempts, early := initial, [], Attempts(0, 0, 0), false;
    while true
      invariant attempts.WithinBound() && |sent| == attempts.Total()
      invariant OnlyWanted(settings, sent)
      decreases 3 * LAUNCH_ATTEMPTS - attempts.Total()
    {
      var mutation := NextMutation(s, settings, attempts);
      NextMutationLaw(s, settings, attempts);
      if mutation.None? {
        return s, sent, attempts, false;
      }
      attempts := attempts.Add(mutation.value.kind);
      OnlyWantedGrows(settings, sent, mutation.value);
      sent := sent + [mutation.value];
      if |sent| > |answers| {
        return s, sent, attempts, true;
      }
      s := answers[|sent| - 1];
    }
  }
}
