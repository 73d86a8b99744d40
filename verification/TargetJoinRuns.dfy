/**
  Target joins run by run: exactly when an entry is registered, claimed, being read and armed, in terms of the
  steps that were taken and what they found.
*/
module TargetJoinRuns {
  import opened Wrappers
  import opened TargetJoin

  // ---- When an entry is registered ----

  /** What is still pending at this time. */
  function Unexpired(s: Joins, now: int): set<string> {
    set k | k in s.byNonce && s.byNonce[k] < |s.entries| && s.entries[s.byNonce[k]].expiresAt > now
  }

  /** The step registers a new entry: not expired itself, with room, and no unexpired one under its attach ID. */
  predicate Admits(s: Joins, step: Step, e: nat) {
    && step.Begin? && e == |s.entries| && step.expiresAt > step.now && |Unexpired(s, step.now)| < MAX_PENDING
    && (step.attachId in s.byAttach ==>
          s.byAttach[step.attachId] < |s.entries| && s.entries[s.byAttach[step.attachId]].expiresAt <= step.now)
  }

  /** The step takes a registered entry off the maps. */
  predicate Unfiles(s: Joins, step: Step, e: nat) {
    && Registered(s, e)
    && match step {
         case Begin(_, _, expiresAt, now) => expiresAt > now && s.entries[e].expiresAt <= now
         case Claim(_, now) => s.entries[e].expiresAt <= now
         case Cancel(attachId) => s.entries[e].attachId == attachId
         case Expire(x) => x == e
         case Leave(x) => x == e
         case ObserveInput(x) => x == e
         case Pong(x, nonce, now, _) => x == e && Accepts(s, e, nonce, now)
         case GiveUp(d) => d < |s.deliveries| && s.deliveries[d].entry == e
         case _ => false
       }
  }

  lemma PruneRegisters(s: Joins, now: int, e: nat)
    requires JoinsOk(s)
    ensures Registered(Prune(s, Expired(s, now)), e) <==> Registered(s, e) && s.entries[e].expiresAt > now
    ensures Prune(s, Expired(s, now)).byNonce.Keys == Unexpired(s, now)
    ensures |Prune(s, Expired(s, now)).entries| == |s.entries|
  {
    assert MapsOk(s);
    if Registered(s, e) {
      assert Filed(s, s.entries[e].attachId, e);
    }
    hide JoinsOk;
  }

  lemma StepRegisters(s: Joins, step: Step, e: nat)
    requires JoinsOk(s) && Enabled(s, step)
    ensures Registered(Next(s, step), e) <==> Admits(s, step, e) || (Registered(s, e) && !Unfiles(s, step, e))
  {
    match step {
      case Begin(_, _, _, _) => BeginRegisters(s, step, e);
      case Claim(nonce, now) => ClaimRegisters(s, nonce, now, e);
      case _ => OtherRegisters(s, step, e);
    }
    hide JoinsOk, Next, Enabled, Admits, Unfiles;
  }

  lemma BeginRegisters(s: Joins, step: Step, e: nat)
    requires JoinsOk(s) && Enabled(s, step) && step.Begin?
    ensures Registered(Next(s, step), e) <==> Admits(s, step, e) || (Registered(s, e) && !Unfiles(s, step, e))
  {
    if step.expiresAt > step.now {
      var p := Prune(s, Expired(s, step.now));
      PruneRegisters(s, step.now, e);
      AttachIsFree(s, step.attachId, step.now);
      assert |p.byNonce| == |p.byNonce.Keys|;
      if step.attachId !in p.byAttach {
        AddRegisters(p, step, e);
      }
      hide JoinsOk, Prune, Expired, Unexpired, Registered;
    }
  }

  /** Adding an entry at the end registers it, and no other is touched while its attach ID was free. */
  lemma AddRegisters(p: Joins, step: Step, e: nat)
    requires step.Begin? && step.attachId !in p.byAttach
    ensures Registered(Added(p, step), e) <==> e == |p.entries| || Registered(p, e)
  {
  }

  function Added(p: Joins, step: Step): Joins
    requires step.Begin?
  {
    var entry :=
      Entry(step.nonce, step.attachId, step.expiresAt, false, false, false, None, NotStarted, false, []);
    p.(entries := p.entries + [entry], byNonce := p.byNonce[step.nonce := |p.entries|],
       byAttach := p.byAttach[step.attachId := |p.entries|])
  }

  lemma AttachIsFree(s: Joins, attachId: string, now: int)
    requires JoinsOk(s)
    ensures attachId !in Prune(s, Expired(s, now)).byAttach <==>
            (attachId in s.byAttach ==>
               s.byAttach[attachId] < |s.entries| && s.entries[s.byAttach[attachId]].expiresAt <= now)
  {
    assert MapsOk(s);
    if attachId in s.byAttach {
      assert Filed(s, attachId, s.byAttach[attachId]);
    }
    hide JoinsOk;
  }

  lemma ClaimRegisters(s: Joins, nonce: string, now: int, e: nat)
    requires JoinsOk(s)
    ensures Registered(ClaimNext(s, nonce, now), e) <==> Registered(s, e) && s.entries[e].expiresAt > now
  {
    PruneRegisters(s, now, e);
    hide JoinsOk, Prune, Expired, Unexpired;
  }

  lemma ForgetRegisters(s: Joins, x: nat, e: nat)
    requires x < |s.entries|
    ensures Registered(Forget(s, x), e) <==> Registered(s, e) && x != e
  {
  }

  lemma ObserveRegisters(s: Joins, x: nat, e: nat)
    requires JoinsOk(s) && x < |s.entries|
    ensures Registered(ObserveNext(s, x), e) <==> Registered(s, e) && x != e
  {
    EntryIsOk(s, x);
    var entry := s.entries[x];
    var seen := Update(s, x, entry.(reader := Observed));
    var settled := SendResult(Update(seen, x, entry.(reader := Observed, inputObserved := true)), entry.current, false);
    ForgetRegisters(settled, x, e);
    hide JoinsOk, Forget;
  }

  lemma PongRegisters(s: Joins, x: nat, nonce: string, now: int, writes: bool, e: nat)
    requires x < |s.entries|
    ensures Registered(PongNext(s, x, nonce, now, writes), e) <==>
            Registered(s, e) && !(x == e && Accepts(s, e, nonce, now))
  {
    if Accepts(s, x, nonce, now) {
      var entry := s.entries[x];
      var written := if writes then entry.written + [entry.current.value] else entry.written;
      var done := entry.(deliveryClaimed := true, written := written);
      ForgetRegisters(SendResult(Update(s, x, done), entry.current, writes), x, e);
      hide Forget;
    }
  }

  lemma CancelRegisters(s: Joins, attachId: string, e: nat)
    requires JoinsOk(s)
    ensures Registered(Next(s, Cancel(attachId)), e) <==> Registered(s, e) && s.entries[e].attachId != attachId
  {
    assert MapsOk(s);
    if attachId in s.byAttach {
      assert Filed(s, attachId, s.byAttach[attachId]);
      ForgetRegisters(s, s.byAttach[attachId], e);
    }
    hide JoinsOk, Forget;
  }

  lemma OtherRegisters(s: Joins, step: Step, e: nat)
    requires JoinsOk(s) && Enabled(s, step) && !step.Begin? && !step.Claim?
    ensures Registered(Next(s, step), e) <==> Registered(s, e) && !Unfiles(s, step, e)
  {
    match step {
      case Cancel(attachId) => CancelRegisters(s, attachId, e);
      case Expire(x) => ForgetRegisters(s, x, e);
      case Leave(x) => ForgetRegisters(s, x, e);
      case GiveUp(d) => ForgetRegisters(s, s.deliveries[d].entry, e);
      case ObserveInput(x) => ObserveRegisters(s, x, e);
      case Pong(x, nonce, now, writes) => PongRegisters(s, x, nonce, now, writes, e);
      case _ => QuietRegisters(s, step, e);
    }
    hide JoinsOk, Forget, ObserveNext, PongNext, Accepts;
  }

  lemma QuietRegisters(s: Joins, step: Step, e: nat)
    requires Enabled(s, step)
    requires step.StartReader? || step.DecodeInput? || step.StartDelivery? || step.TakeResult?
    ensures Registered(Next(s, step), e) <==> Registered(s, e)
  {
  }

  ghost predicate AdmittedAt(trace: seq<Joins>, steps: seq<Step>, j: nat, n: nat, e: nat)
    requires j < n <= |steps| < |trace|
  {
    Admits(trace[j], steps[j], e) && forall k :: j < k < n ==> !Unfiles(trace[k], steps[k], e)
  }

  lemma AdmittedAtOneMore(trace: seq<Joins>, steps: seq<Step>, n: nat, e: nat)
    requires 0 < n <= |steps| < |trace|
    ensures AdmittedAt(trace, steps, n - 1, n, e) <==> Admits(trace[n - 1], steps[n - 1], e)
    ensures forall j: nat :: j < n - 1 ==>
              (AdmittedAt(trace, steps, j, n, e) <==>
               AdmittedAt(trace, steps, j, n - 1, e) && !Unfiles(trace[n - 1], steps[n - 1], e))
  {
    hide Registered, Admits, Unfiles;
  }

  lemma RegisteredIffStep(trace: seq<Joins>, steps: seq<Step>, n: nat, e: nat)
    requires Execution(trace, steps) && 0 < n < |trace|
    ensures |steps| == |trace| - 1
    ensures Registered(trace[n], e) <==>
            || Admits(trace[n - 1], steps[n - 1], e)
            || (Registered(trace[n - 1], e) && !Unfiles(trace[n - 1], steps[n - 1], e))
  {
    hide Next, Enabled, JoinsOk, Registered, Admits, Unfiles;
    ExecutionOk(trace, steps, n - 1);
    StepRegisters(trace[n - 1], steps[n - 1], e);
  }

  lemma RegisteredIffFirst(trace: seq<Joins>, steps: seq<Step>, e: nat)
    requires Execution(trace, steps)
    ensures |steps| == |trace| - 1 && !Registered(trace[0], e)
  {
  }

  /** In every run an entry is registered exactly when it was admitted and no later step took it off the maps. */
  lemma {:induction false} RegisteredIff(trace: seq<Joins>, steps: seq<Step>, n: nat, e: nat)
    requires Execution(trace, steps) && n < |trace|
    ensures |steps| == |trace| - 1
    ensures Registered(trace[n], e) <==> exists j: nat :: j < n && AdmittedAt(trace, steps, j, n, e)
    decreases n
  {
    hide Execution, Registered, Admits, Unfiles, AdmittedAt;
    if n == 0 {
      RegisteredIffFirst(trace, steps, e);
    } else {
      RegisteredIff(trace, steps, n - 1, e);
      RegisteredIffStep(trace, steps, n, e);
      AdmittedAtOneMore(trace, steps, n, e);
      if Registered(trace[n - 1], e) {
        var j: nat :| j < n - 1 && AdmittedAt(trace, steps, j, n - 1, e);
        assert AdmittedAt(trace, steps, j, n, e) <==> !Unfiles(trace[n - 1], steps[n - 1], e);
      }
      if exists j: nat :: j < n && AdmittedAt(trace, steps, j, n, e) {
        var j: nat :| j < n && AdmittedAt(trace, steps, j, n, e);
        assert j < n - 1 ==> AdmittedAt(trace, steps, j, n - 1, e);
      }
    }
  }

  // ---- What a step changes of an entry ----

  lemma ForgetEntries(s: Joins, x: nat)
    requires x < |s.entries|
    ensures Forget(s, x).entries == s.entries[x := s.entries[x].(finished := true)]
  {
  }

  lemma PruneEntries(s: Joins, gone: set<nat>, e: nat)
    requires e < |s.entries|
    ensures |Prune(s, gone).entries| == |s.entries|
    ensures Prune(s, gone).entries[e] == s.entries[e] || Prune(s, gone).entries[e] == s.entries[e].(finished := true)
  {
  }

  /** The step hands the next delivery to the entry. */
  predicate Arms(s: Joins, step: Step, e: nat) {
    step.StartDelivery? && step.e == e && Registered(s, e) && s.entries[e].claimed && !s.entries[e].inputObserved &&
    !s.entries[e].deliveryClaimed
  }

  predicate StartsReading(s: Joins, step: Step, e: nat) {
    step == StartReader(e) && Registered(s, e) && s.entries[e].claimed
  }

  function ReaderAfter(s: Joins, step: Step, e: nat): Reader
    requires e < |s.entries|
  {
    if StartsReading(s, step, e) then Reading
    else if step == DecodeInput(e) then Decoded
    else if step == ObserveInput(e) then Observed
    else s.entries[e].reader
  }

  /** What a step makes of an entry's claim, reader and delivery. */
  ghost predicate EntryStep(s: Joins, step: Step, e: nat, s': Joins) {
    && |s.entries| <= |s'.entries|
    && (e < |s.entries| ==>
          && (!step.Claim? ==> s'.entries[e].claimed == s.entries[e].claimed)
          && s'.entries[e].reader == ReaderAfter(s, step, e)
          && s'.entries[e].current == if Arms(s, step, e) then Some(|s.deliveries|) else s.entries[e].current)
    && (|s.entries| <= e < |s'.entries| ==>
          !step.Claim? && !s'.entries[e].claimed && s'.entries[e].reader.NotStarted? && s'.entries[e].current.None?)
  }

  lemma StepEntry(s: Joins, step: Step, e: nat)
    requires Enabled(s, step)
    ensures EntryStep(s, step, e, Next(s, step))
  {
    if step.Begin? {
      BeginEntry(s, step, e);
    } else if step.Claim? {
      ClaimEntry(s, step, e);
    } else {
      OtherEntry(s, step, e);
    }
  }

  lemma BeginEntry(s: Joins, step: Step, e: nat)
    requires Enabled(s, step) && step.Begin?
    ensures EntryStep(s, step, e, Next(s, step))
  {
    assert |Prune(s, Expired(s, step.now)).entries| == |s.entries|;
    if e < |s.entries| {
      PruneEntries(s, Expired(s, step.now), e);
    }
    hide Prune, Expired, Registered;
  }

  lemma ClaimEntry(s: Joins, step: Step, e: nat)
    requires Enabled(s, step) && step.Claim?
    ensures EntryStep(s, step, e, Next(s, step))
  {
    assert |Prune(s, Expired(s, step.now)).entries| == |s.entries|;
    if e < |s.entries| {
      PruneEntries(s, Expired(s, step.now), e);
    }
    hide Prune, Expired, Registered;
  }

  lemma OtherEntry(s: Joins, step: Step, e: nat)
    requires Enabled(s, step) && !step.Begin? && !step.Claim?
    ensures EntryStep(s, step, e, Next(s, step))
  {
    match step {
      case Cancel(_) => LeavingEntry(s, step, e);
      case Expire(_) => LeavingEntry(s, step, e);
      case Leave(_) => LeavingEntry(s, step, e);
      case GiveUp(_) => LeavingEntry(s, step, e);
      case ObserveInput(x) =>
        ObserveEntries(s, x);
        hide ObserveNext, Registered;
      case Pong(x, nonce, now, writes) =>
        PongEntries(s, x, nonce, now, writes);
        hide PongNext, Registered;
      case _ => QuietEntry(s, step, e);
    }
  }

  lemma LeavingEntry(s: Joins, step: Step, e: nat)
    requires Enabled(s, step) && (step.Cancel? || step.Expire? || step.Leave? || step.GiveUp?)
    ensures EntryStep(s, step, e, Next(s, step))
  {
    match step {
      case Cancel(attachId) =>
        if attachId in s.byAttach && s.byAttach[attachId] < |s.entries| {
          ForgetEntries(s, s.byAttach[attachId]);
        }
      case Expire(x) => ForgetEntries(s, x);
      case Leave(x) => ForgetEntries(s, x);
      case GiveUp(d) => ForgetEntries(s, s.deliveries[d].entry);
    }
    hide Forget;
  }

  lemma QuietEntry(s: Joins, step: Step, e: nat)
    requires Enabled(s, step)
    requires step.StartReader? || step.DecodeInput? || step.StartDelivery? || step.TakeResult?
    ensures EntryStep(s, step, e, Next(s, step))
  {
  }

  lemma ObserveEntries(s: Joins, x: nat)
    requires x < |s.entries|
    ensures var entries := ObserveNext(s, x).entries;
            && |entries| == |s.entries| && entries == s.entries[x := entries[x]]
            && entries[x] == s.entries[x].(reader := Observed, inputObserved := entries[x].inputObserved,
                                           finished := entries[x].finished)
  {
  }

  lemma PongEntries(s: Joins, x: nat, nonce: string, now: int, writes: bool)
    requires x < |s.entries|
    ensures var entries := PongNext(s, x, nonce, now, writes).entries;
            && |entries| == |s.entries| && entries == s.entries[x := entries[x]]
            && entries[x] == s.entries[x].(deliveryClaimed := entries[x].deliveryClaimed,
                                           written := entries[x].written, finished := entries[x].finished)
  {
  }

  // ---- When an entry is claimed ----

  predicate IsClaimed(s: Joins, e: nat) {
    e < |s.entries| && s.entries[e].claimed
  }

  /** The step claims the entry: registered under this nonce, not expired, and nobody has claimed it. */
  predicate Claims(s: Joins, step: Step, e: nat) {
    step.Claim? && Registered(s, e) && s.entries[e].nonce == step.nonce && s.entries[e].expiresAt > step.now &&
    !s.entries[e].claimed
  }

  lemma ClaimClaims(s: Joins, nonce: string, now: int, e: nat)
    requires JoinsOk(s)
    ensures IsClaimed(ClaimNext(s, nonce, now), e) <==> IsClaimed(s, e) || Claims(s, Claim(nonce, now), e)
  {
    assert MapsOk(s);
    if Registered(s, e) {
      assert Filed(s, s.entries[e].attachId, e);
      EntryIsOk(s, e);
    }
    if nonce in s.byNonce {
      assert Pending(s, nonce, s.byNonce[nonce]);
      EntryIsOk(s, s.byNonce[nonce]);
    }
    hide JoinsOk, MapsOk, EntryOk;
  }

  lemma StepClaims(s: Joins, step: Step, e: nat)
    requires JoinsOk(s) && Enabled(s, step)
    ensures IsClaimed(Next(s, step), e) <==> IsClaimed(s, e) || Claims(s, step, e)
  {
    if step.Claim? {
      ClaimClaims(s, step.nonce, step.now, e);
    } else {
      StepEntry(s, step, e);
    }
    hide JoinsOk, Next, Enabled, Registered;
  }

  ghost predicate ClaimedAt(trace: seq<Joins>, steps: seq<Step>, j: nat, e: nat)
    requires j < |steps| < |trace|
  {
    Claims(trace[j], steps[j], e)
  }

  /** An entry is claimed exactly when an earlier step claimed it. */
  lemma {:induction false} ClaimedIff(trace: seq<Joins>, steps: seq<Step>, n: nat, e: nat)
    requires Execution(trace, steps) && n < |trace|
    ensures IsClaimed(trace[n], e) <==> exists j: nat :: j < n && ClaimedAt(trace, steps, j, e)
    decreases n
  {
    hide Next, Enabled, JoinsOk, Claims;
    if n > 0 {
      ClaimedIff(trace, steps, n - 1, e);
      ExecutionOk(trace, steps, n - 1);
      StepClaims(trace[n - 1], steps[n - 1], e);
      assert ClaimedAt(trace, steps, n - 1, e) == Claims(trace[n - 1], steps[n - 1], e);
      hide Execution, ClaimedAt, IsClaimed;
    }
  }

  /** No run claims an entry twice. */
  lemma ClaimedOnce(trace: seq<Joins>, steps: seq<Step>, i: nat, j: nat, e: nat)
    requires Execution(trace, steps) && i < j < |steps| && ClaimedAt(trace, steps, i, e)
    ensures !ClaimedAt(trace, steps, j, e)
  {
    ClaimedIff(trace, steps, j, e);
    hide Execution;
  }

  // ---- When its socket is being read ----

  predicate IsReading(s: Joins, e: nat) {
    e < |s.entries| && s.entries[e].reader.Reading?
  }

  predicate StopsReading(s: Joins, step: Step, e: nat) {
    (step == DecodeInput(e) || step == ObserveInput(e)) && e < |s.entries|
  }

  lemma StepReads(s: Joins, step: Step, e: nat)
    requires JoinsOk(s) && Enabled(s, step)
    ensures IsReading(Next(s, step), e) <==>
            StartsReading(s, step, e) || (IsReading(s, e) && !StopsReading(s, step, e))
  {
    StepEntry(s, step, e);
    hide JoinsOk, Next;
  }

  ghost predicate ReadingSince(trace: seq<Joins>, steps: seq<Step>, j: nat, n: nat, e: nat)
    requires j < n <= |steps| < |trace|
  {
    StartsReading(trace[j], steps[j], e) && forall k :: j < k < n ==> !StopsReading(trace[k], steps[k], e)
  }

  lemma ReadingSinceOneMore(trace: seq<Joins>, steps: seq<Step>, n: nat, e: nat)
    requires 0 < n <= |steps| < |trace|
    ensures ReadingSince(trace, steps, n - 1, n, e) <==> StartsReading(trace[n - 1], steps[n - 1], e)
    ensures forall j: nat :: j < n - 1 ==>
              (ReadingSince(trace, steps, j, n, e) <==>
               ReadingSince(trace, steps, j, n - 1, e) && !StopsReading(trace[n - 1], steps[n - 1], e))
  {
    hide IsReading, StartsReading, StopsReading;
  }

  lemma ReadingIffStep(trace: seq<Joins>, steps: seq<Step>, n: nat, e: nat)
    requires Execution(trace, steps) && 0 < n < |trace|
    ensures |steps| == |trace| - 1
    ensures IsReading(trace[n], e) <==>
            || StartsReading(trace[n - 1], steps[n - 1], e)
            || (IsReading(trace[n - 1], e) && !StopsReading(trace[n - 1], steps[n - 1], e))
  {
    hide Next, Enabled, JoinsOk, IsReading, StartsReading, StopsReading;
    ExecutionOk(trace, steps, n - 1);
    StepReads(trace[n - 1], steps[n - 1], e);
  }

  lemma ReadingIffFirst(trace: seq<Joins>, steps: seq<Step>, e: nat)
    requires Execution(trace, steps)
    ensures |steps| == |trace| - 1 && !IsReading(trace[0], e)
  {
  }

  /** Its socket is being read exactly when a reader was started on the claimed entry and has decoded nothing since. */
  lemma {:induction false} ReadingIff(trace: seq<Joins>, steps: seq<Step>, n: nat, e: nat)
    requires Execution(trace, steps) && n < |trace|
    ensures |steps| == |trace| - 1
    ensures IsReading(trace[n], e) <==> exists j: nat :: j < n && ReadingSince(trace, steps, j, n, e)
    decreases n
  {
    hide Execution, IsReading, StartsReading, StopsReading, ReadingSince;
    if n == 0 {
      ReadingIffFirst(trace, steps, e);
    } else {
      ReadingIff(trace, steps, n - 1, e);
      ReadingIffStep(trace, steps, n, e);
      ReadingSinceOneMore(trace, steps, n, e);
      if IsReading(trace[n - 1], e) {
        var j: nat :| j < n - 1 && ReadingSince(trace, steps, j, n - 1, e);
        assert ReadingSince(trace, steps, j, n, e) <==> !StopsReading(trace[n - 1], steps[n - 1], e);
      }
      if exists j: nat :: j < n && ReadingSince(trace, steps, j, n, e) {
        var j: nat :| j < n && ReadingSince(trace, steps, j, n, e);
        assert j < n - 1 ==> ReadingSince(trace, steps, j, n - 1, e);
      }
    }
  }

  // ---- Which delivery it holds ----

  predicate HoldsDelivery(s: Joins, e: nat, d: nat) {
    e < |s.entries| && s.entries[e].current == Some(d)
  }

  predicate ArmsWith(s: Joins, step: Step, e: nat, d: nat) {
    Arms(s, step, e) && d == |s.deliveries|
  }

  lemma StepArms(s: Joins, step: Step, e: nat, d: nat)
    requires JoinsOk(s) && Enabled(s, step)
    ensures HoldsDelivery(Next(s, step), e, d) <==>
            ArmsWith(s, step, e, d) || (HoldsDelivery(s, e, d) && !Arms(s, step, e))
  {
    StepEntry(s, step, e);
    hide JoinsOk, Next;
  }

  ghost predicate ArmedSince(trace: seq<Joins>, steps: seq<Step>, j: nat, n: nat, e: nat, d: nat)
    requires j < n <= |steps| < |trace|
  {
    ArmsWith(trace[j], steps[j], e, d) && forall k :: j < k < n ==> !Arms(trace[k], steps[k], e)
  }

  lemma ArmedSinceOneMore(trace: seq<Joins>, steps: seq<Step>, n: nat, e: nat, d: nat)
    requires 0 < n <= |steps| < |trace|
    ensures ArmedSince(trace, steps, n - 1, n, e, d) <==> ArmsWith(trace[n - 1], steps[n - 1], e, d)
    ensures forall j: nat :: j < n - 1 ==>
              (ArmedSince(trace, steps, j, n, e, d) <==>
               ArmedSince(trace, steps, j, n - 1, e, d) && !Arms(trace[n - 1], steps[n - 1], e))
  {
    hide HoldsDelivery, ArmsWith, Arms;
  }

  lemma HoldsIffStep(trace: seq<Joins>, steps: seq<Step>, n: nat, e: nat, d: nat)
    requires Execution(trace, steps) && 0 < n < |trace|
    ensures |steps| == |trace| - 1
    ensures HoldsDelivery(trace[n], e, d) <==>
            || ArmsWith(trace[n - 1], steps[n - 1], e, d)
            || (HoldsDelivery(trace[n - 1], e, d) && !Arms(trace[n - 1], steps[n - 1], e))
  {
    hide Next, Enabled, JoinsOk, HoldsDelivery, ArmsWith, Arms;
    ExecutionOk(trace, steps, n - 1);
    StepArms(trace[n - 1], steps[n - 1], e, d);
  }

  lemma HoldsIffFirst(trace: seq<Joins>, steps: seq<Step>, e: nat, d: nat)
    requires Execution(trace, steps)
    ensures |steps| == |trace| - 1 && !HoldsDelivery(trace[0], e, d)
  {
  }

  /** An entry holds a delivery exactly when that was the last one that armed it. */
  lemma {:induction false} HoldsIff(trace: seq<Joins>, steps: seq<Step>, n: nat, e: nat, d: nat)
    requires Execution(trace, steps) && n < |trace|
    ensures |steps| == |trace| - 1
    ensures HoldsDelivery(trace[n], e, d) <==> exists j: nat :: j < n && ArmedSince(trace, steps, j, n, e, d)
    decreases n
  {
    hide Execution, HoldsDelivery, ArmsWith, Arms, ArmedSince;
    if n == 0 {
      HoldsIffFirst(trace, steps, e, d);
    } else {
      HoldsIff(trace, steps, n - 1, e, d);
      HoldsIffStep(trace, steps, n, e, d);
      ArmedSinceOneMore(trace, steps, n, e, d);
      if HoldsDelivery(trace[n - 1], e, d) {
        var j: nat :| j < n - 1 && ArmedSince(trace, steps, j, n - 1, e, d);
        assert ArmedSince(trace, steps, j, n, e, d) <==> !Arms(trace[n - 1], steps[n - 1], e);
      }
      if exists j: nat :: j < n && ArmedSince(trace, steps, j, n, e, d) {
        var j: nat :| j < n && ArmedSince(trace, steps, j, n, e, d);
        assert j < n - 1 ==> ArmedSince(trace, steps, j, n - 1, e, d);
      }
    }
  }
}
