/**
  What the issuer promises about one bearer over a run of calls: how long a preflight holds and how long a
  retired bearer stays rejected. Neither holds on every run; the theorems give the exact conditions.
*/
module CredentialLifetimes {
  import opened Wrappers
  import opened CredentialIssuer

  /** A run of calls from any state. */
  ghost predicate RunFrom(s: Issuer, trace: seq<Issuer>, steps: seq<Step>) {
    && |trace| == |steps| + 1 && trace[0] == s
    && forall i :: 0 <= i < |steps| ==> Enabled(trace[i], steps[i]) && trace[i + 1] == Next(trace[i], steps[i])
  }

  lemma {:induction false} RunOk(s: Issuer, trace: seq<Issuer>, steps: seq<Step>, n: nat)
    requires IssuerOk(s) && RunFrom(s, trace, steps) && n < |trace|
    ensures IssuerOk(trace[n])
    decreases n
  {
    hide IssuerOk, Next;
    if n > 0 {
      RunOk(s, trace, steps, n - 1);
      StepOk(trace[n - 1], steps[n - 1]);
    }
  }

  // ---- Fresh bearers ----

  /** A bearer of its own for every number. */
  function Name(k: nat): (b: string)
    ensures |b| == k + 1
  {
    if k == 0 then "a" else Name(k - 1) + "a"
  }

  lemma {:induction false} Longer(keys: set<string>) returns (k: nat)
    ensures Name(k) !in keys && forall b :: b in keys ==> |b| <= k
    decreases |keys|
  {
    if keys == {} {
      k := 0;
    } else {
      var b :| b in keys;
      var rest := Longer(keys - {b});
      k := if |b| < rest then rest else |b|;
      assert forall x :: x in keys ==> x == b || x in keys - {b};
    }
  }

  // ---- How long a preflight holds ----

  /** A pending bearer still activates after any calls on other bearers before it expires. */
  lemma {:induction false} PreflightHolds(
    s: Issuer, trace: seq<Issuer>, steps: seq<Step>, n: nat, c: Credential, now: int)
    requires IssuerOk(s) && RunFrom(s, trace, steps) && n < |trace|
    requires c.bearer != "" && Preflighted(s, c) && now < c.expiresAt
    requires forall k :: 0 <= k < n ==> Elsewhere(steps[k], c)
    ensures Preflighted(trace[n], c) && Activates(trace[n], c, now)
    decreases n
  {
    hide IssuerOk, Next;
    if n > 0 {
      PreflightHolds(s, trace, steps, n - 1, c, now);
      RunOk(s, trace, steps, n - 1);
      StaysPreflighted(trace[n - 1], steps[n - 1], c);
    }
  }

  /** Whatever calls on other bearers come first, activating `c` before it expires succeeds. */
  ghost predicate Infallible(s: Issuer, c: Credential) {
    forall trace, steps, now ::
      RunFrom(s, trace, steps) && AllElsewhere(steps, c) && now < c.expiresAt ==>
        Activates(trace[|steps|], c, now)
  }

  lemma KeptIff(s: Issuer, now: int, b: string)
    ensures b in DropExpired(s, now).prepared <==> b in s.prepared && s.prepared[b].expiresAt > now
    ensures b in DropExpired(s, now).prepared ==> DropExpired(s, now).prepared[b] == s.prepared[b]
  {
  }

  lemma DiscardDrops(s: Issuer, other: Credential, evicted: string)
    requires Known(s, other) && other.bearer != ""
    ensures var s' := Discard(s, other, evicted);
            s'.prepared == s.prepared - {other.bearer} && s'.pending == s.pending - {other.bearer}
  {
    hide Lineage, Retire;
  }

  lemma DiscardShrinks(s: Issuer, other: Credential, evicted: string, now: int, c: Credential)
    requires Known(s, other) && other.bearer != "" && now < other.expiresAt
    requires Validates(s, c, now) && c.bearer != other.bearer
    ensures var s' := Discard(s, other, evicted);
            && |DropExpired(s', now).prepared| < |DropExpired(s, now).prepared| && Validates(s', c, now)
            && (c.bearer in s'.pending <==> c.bearer in s.pending)
  {
    var s' := Discard(s, other, evicted);
    DiscardDrops(s, other, evicted);
    hide DropExpired, Discard;
    var d, d' := DropExpired(s, now), DropExpired(s', now);
    forall b
      ensures b in d'.prepared <==> b in d.prepared && b != other.bearer
    {
      KeptIff(s, now, b);
      KeptIff(s', now, b);
    }
    KeptIff(s, now, other.bearer);
    KeptIff(s, now, c.bearer);
    KeptIff(s', now, c.bearer);
    assert d'.prepared.Keys == d.prepared.Keys - {other.bearer};
  }

  ghost predicate AllElsewhere(steps: seq<Step>, c: Credential) {
    forall k :: 0 <= k < |steps| ==> Elsewhere(steps[k], c)
  }

  /** A bearer that a full retired set may evict. */
  lemma Evictable(retired: set<string>) returns (b: string)
    ensures |retired| >= MAX_CREDENTIALS ==> b in retired
  {
    b := "";
    if retired != {} {
      b :| b in retired;
    }
  }

  lemma Another(prepared: map<string, Credential>, b: string) returns (other: string)
    requires |prepared| >= MAX_CREDENTIALS
    ensures other in prepared && other != b
  {
    if prepared.Keys <= {b} {
      SubsetSize(prepared.Keys, {b});
    }
    other :| other in prepared && other != b;
  }

  lemma SubsetSize(a: set<string>, b: set<string>)
    requires a <= b
    ensures |a| <= |b|
  {
    assert |a| + |b - a| == |b|;
  }

  /** One more call at the end of a run on other bearers. */
  lemma OneMore(s: Issuer, trace: seq<Issuer>, steps: seq<Step>, step: Step, c: Credential)
    requires RunFrom(s, trace, steps) && AllElsewhere(steps, c)
    requires Enabled(trace[|steps|], step) && Elsewhere(step, c)
    ensures RunFrom(s, trace + [Next(trace[|steps|], step)], steps + [step]) && AllElsewhere(steps + [step], c)
  {
    hide Next, Enabled, Elsewhere;
  }

  lemma AnotherKnown(s: Issuer, c: Credential, now: int) returns (other: Credential)
    requires IssuerOk(s) && |DropExpired(s, now).prepared| >= MAX_CREDENTIALS
    ensures Known(s, other) && other.bearer != "" && now < other.expiresAt && c.bearer != other.bearer
    ensures |DropExpired(s, now).prepared| == MAX_CREDENTIALS
  {
    hide ValidRequest;
    DropExpiredOk(s, now);
    hide DropExpired;
    var b := Another(DropExpired(s, now).prepared, c.bearer);
    KeptIff(s, now, b);
    other := s.prepared[b];
  }

  /** Room for one more bearer, made by discarding another one when there is none. */
  lemma MakeRoom(s: Issuer, c: Credential, now: int) returns (trace: seq<Issuer>, steps: seq<Step>)
    requires IssuerOk(s) && Validates(s, c, now)
    ensures RunFrom(s, trace, steps) && AllElsewhere(steps, c)
    ensures var s' := trace[|steps|];
            && |DropExpired(s', now).prepared| < MAX_CREDENTIALS && Validates(s', c, now)
            && (c.bearer in s'.pending <==> c.bearer in s.pending)
  {
    hide DropExpired, Discard, IssuerOk, Validates, ValidRequest;
    trace, steps := [s], [];
    if |DropExpired(s, now).prepared| >= MAX_CREDENTIALS {
      var other := AnotherKnown(s, c, now);
      var evicted := Evictable(s.retired);
      DiscardShrinks(s, other, evicted, now, c);
      OneMore(s, trace, steps, DoDiscard(other, evicted), c);
      trace, steps := trace + [Discard(s, other, evicted)], steps + [DoDiscard(other, evicted)];
    }
  }

  lemma ActiveUnlessPending(s: Issuer, c: Credential, now: int)
    requires IssuerOk(s) && Validates(s, c, now) && c.bearer !in s.pending
    ensures var d := DropExpired(s, now); Lineage(c) in d.active && d.active[Lineage(c)] == c.bearer
  {
    hide Lineage, ValidRequest;
    DropExpiredOk(s, now);
  }

  /** With room for it, a credential that is not expired is prepared and stays so. */
  lemma PreparedAnew(s: Issuer, c: Credential, now: int)
    requires |DropExpired(s, now).prepared| < MAX_CREDENTIALS && c.bearer !in s.prepared && now < c.expiresAt
    ensures var p := Prepare(s, c, now);
            && DropExpired(p, now) == p && Known(p, c) && p.active == DropExpired(s, now).active
  {
    var p, d := Prepare(s, c, now), DropExpired(s, now);
    KeptIff(s, now, c.bearer);
    assert p == d.(prepared := d.prepared[c.bearer := c], pending := d.pending + {c.bearer});
    forall b | b in p.prepared
      ensures now < p.prepared[b].expiresAt
    {
      KeptIff(s, now, b);
    }
    hide Without, Prepare;
    assert Expired(p, now) == {};
    WithoutNone(p);
  }

  /** Preparing and activating another credential of the lineage drops the one that was active. */
  lemma RivalReplaces(s: Issuer, c: Credential, rival: Credential, now: int, evicted: string)
    requires IssuerOk(s) && Validates(s, c, now) && c.bearer !in s.pending
    requires |DropExpired(s, now).prepared| < MAX_CREDENTIALS
    requires rival.bearer != "" && rival.bearer !in s.prepared && ValidRequest(rival)
    requires Lineage(rival) == Lineage(c) && now < rival.expiresAt
    ensures c.bearer !in Activate(Prepare(s, rival, now), rival, now, evicted).prepared
  {
    DropExpiredOk(s, now);
    ActiveUnlessPending(s, c, now);
    PreparedAnew(s, rival, now);
    hide Lineage, DropExpired, Prepare, IssuerOk;
  }

  lemma {:induction false} NextGeneration(prepared: map<string, Credential>) returns (g: int)
    ensures g >= 1 && forall b :: b in prepared ==> prepared[b].generation < g
    decreases |prepared|
  {
    if prepared == map[] {
      g := 1;
    } else {
      assert prepared.Keys != {};
      var b :| b in prepared;
      var rest := prepared - {b};
      assert rest.Keys == prepared.Keys - {b};
      g := NextGeneration(rest);
      g := if g <= prepared[b].generation then prepared[b].generation + 1 else g;
      assert forall x :: x in prepared ==> x == b || (x in rest && rest[x] == prepared[x]);
    }
  }

  /** A later request of the lineage: no prepared credential has its generation, so its bearer is its own. */
  lemma Fresh(s: Issuer, c: Credential) returns (rival: Credential)
    requires ValidRequest(c)
    ensures rival == c.(bearer := rival.bearer, generation := rival.generation) && ValidRequest(rival)
    ensures rival.bearer != "" && rival.bearer !in s.prepared && rival.bearer != c.bearer
    ensures c.generation < rival.generation
    ensures forall b :: b in s.prepared ==> s.prepared[b].generation < rival.generation
  {
    var k := Longer(s.prepared.Keys + {c.bearer});
    var g := NextGeneration(s.prepared);
    rival := c.(bearer := Name(k), generation := if g <= c.generation then c.generation + 1 else g);
  }

  lemma PrepareKeepsRetired(s: Issuer, c: Credential, now: int)
    ensures Prepare(s, c, now).retired == s.retired
  {
  }

  lemma KnownIsValid(s: Issuer, c: Credential, now: int)
    requires IssuerOk(s) && Validates(s, c, now)
    ensures ValidRequest(c)
  {
  }

  /** A run that replaces an active bearer by a rival of its lineage. */
  lemma RivalRun(s: Issuer, c: Credential, now: int) returns (trace: seq<Issuer>, steps: seq<Step>)
    requires IssuerOk(s) && Validates(s, c, now) && c.bearer !in s.pending
    ensures RunFrom(s, trace, steps) && AllElsewhere(steps, c)
    ensures c.bearer !in trace[|steps|].prepared
  {
    hide IssuerOk, DropExpired, Prepare, Activate, ValidRequest;
    trace, steps := MakeRoom(s, c, now);
    var r := trace[|steps|];
    RunOk(s, trace, steps, |steps|);
    KnownIsValid(r, c, now);
    var rival := Fresh(r, c);
    var evicted := Evictable(r.retired);
    var prepare, activate := DoPrepare(rival, now), DoActivate(rival, now, evicted);
    RivalReplaces(r, c, rival, now, evicted);
    PrepareKeepsRetired(r, rival, now);
    hide RunFrom, AllElsewhere;
    OneMore(s, trace, steps, prepare, c);
    trace, steps := trace + [Next(r, prepare)], steps + [prepare];
    OneMore(s, trace, steps, activate, c);
    trace, steps := trace + [Next(Next(r, prepare), activate)], steps + [activate];
  }

  /** A bearer that is no longer pending is active, and a rival of its lineage replaces it. */
  lemma ActiveIsReplaceable(s: Issuer, c: Credential, now: int)
    requires IssuerOk(s) && Validates(s, c, now) && c.bearer !in s.pending
    ensures Active(s, c.bearer, now, None) == Some(c)
    ensures !Infallible(s, c)
  {
    hide ValidRequest;
    DropExpiredOk(s, now);
    var trace, steps := RivalRun(s, c, now);
    KeptIff(trace[|steps|], now, c.bearer);
    assert !Activates(trace[|steps|], c, now);
    hide Next, Enabled;
  }

  /**
    The exact reach of the preflight: a validated credential activates after any such run if and only if it is
    pending.
  */
  lemma InfallibleIffPending(s: Issuer, c: Credential, now: int)
    requires IssuerOk(s) && Validates(s, c, now)
    ensures Infallible(s, c) <==> c.bearer in s.pending
  {
    if c.bearer in s.pending {
      forall trace, steps, later |
        RunFrom(s, trace, steps) && AllElsewhere(steps, c) && later < c.expiresAt
        ensures Activates(trace[|steps|], c, later)
      {
        PreflightHolds(s, trace, steps, |steps|, c, later);
      }
    } else {
      ActiveIsReplaceable(s, c, now);
    }
  }

  // ---- How long a retired bearer stays rejected ----

  /** No clock and no seal make the issuer accept the bearer. */
  ghost predicate AlwaysRejected(s: Issuer, b: string) {
    forall now, unsealed :: Active(s, b, now, unsealed) == None
  }

  predicate Barred(s: Issuer, b: string) {
    b in s.retired && (b in s.prepared ==> b in s.pending)
  }

  lemma RejectedIffBarred(s: Issuer, b: string)
    requires IssuerOk(s) && b != ""
    ensures AlwaysRejected(s, b) <==> Barred(s, b)
  {
    hide ValidRequest;
    if b in s.prepared {
      var c := s.prepared[b];
      assert b !in s.pending ==> Active(s, b, c.expiresAt - 1, None) == Some(c);
      assert b !in s.retired ==> Active(s, b, c.expiresAt, Some(c)) == Some(c);
      if b in s.pending {
        PendingIsNotActive(s, b);
      }
    } else {
      var c := Credential(b, "", TargetAttach, "", "", 0, "", "", 0);
      assert b !in s.retired ==> Active(s, b, 0, Some(c)) == Some(c);
    }
  }

  lemma PendingIsNotActive(s: Issuer, b: string)
    requires IssuerOk(s) && b in s.pending
    ensures forall k :: k in s.active ==> s.active[k] != b
  {
    hide ValidRequest;
    assert forall k :: k in s.active ==> Filed(s, k, s.active[k]);
  }

  /** The call retires another bearer into a full set and drops `b` to make room. */
  predicate Evicts(s: Issuer, step: Step, b: string) {
    match step
    case DoPrepare(_, _) => false
    case DoActivate(c, now, evicted) =>
      && Activates(s, c, now) && evicted == b && |s.retired| >= MAX_CREDENTIALS
      && Predecessor(DropExpired(s, now), c) !in {None, Some(b)}
    case DoValidate(_, _) => false
    case DoDiscard(c, evicted) =>
      c.bearer != "" && Known(s, c) && evicted == b && |s.retired| >= MAX_CREDENTIALS && c.bearer != b
    case DoActive(_, _) => false
  }

  /** The call activates `b`, which somebody prepared again. */
  predicate Revives(s: Issuer, step: Step, b: string) {
    step.DoActivate? && step.c.bearer == b && Activates(s, step.c, step.now)
  }

  lemma BarredStep(s: Issuer, step: Step, b: string)
    requires IssuerOk(s) && Enabled(s, step) && b != "" && Barred(s, b)
    ensures Barred(Next(s, step), b) <==> !Evicts(s, step, b) && !Revives(s, step, b)
  {
    hide Lineage, ValidRequest;
    if step.DoActivate? {
      DropExpiredOk(s, step.now);
      PredecessorNotPending(DropExpired(s, step.now), step.c);
    }
  }

  /** No call from `i` to `j` evicts the bearer or activates it again. */
  ghost predicate Undisturbed(trace: seq<Issuer>, steps: seq<Step>, i: nat, j: nat, b: string)
    requires |trace| == |steps| + 1 && i <= j < |trace|
  {
    forall k :: i <= k < j ==> !Evicts(trace[k], steps[k], b) && !Revives(trace[k], steps[k], b)
  }

  ghost predicate BarredThroughout(trace: seq<Issuer>, i: nat, j: nat, b: string)
    requires i <= j < |trace|
  {
    forall n :: i <= n <= j ==> Barred(trace[n], b)
  }

  lemma {:induction false} BarredIffUndisturbed(trace: seq<Issuer>, steps: seq<Step>, i: nat, j: nat, b: string)
    requires Execution(trace, steps) && i <= j < |trace| && b != "" && Barred(trace[i], b)
    ensures BarredThroughout(trace, i, j, b) <==> Undisturbed(trace, steps, i, j, b)
    decreases j
  {
    hide IssuerOk, Next, Enabled, Evicts, Revives, Barred;
    if i < j {
      BarredIffUndisturbed(trace, steps, i, j - 1, b);
      ExecutionOk(trace, steps, j - 1);
      if BarredThroughout(trace, i, j - 1, b) {
        BarredStep(trace[j - 1], steps[j - 1], b);
        assert trace[j] == Next(trace[j - 1], steps[j - 1]);
        assert Barred(trace[j - 1], b);
      }
    }
  }

  /**
    A rejected bearer stays rejected at every later point, whatever the clock says and whatever its seal opens
    to, if and only if no call in between evicts it from the full retired set or activates it after it was
    prepared again.
  */
  lemma StaysRejectedIff(trace: seq<Issuer>, steps: seq<Step>, i: nat, j: nat, b: string)
    requires Execution(trace, steps) && i <= j < |trace| && b != "" && AlwaysRejected(trace[i], b)
    ensures (forall n :: i <= n <= j ==> AlwaysRejected(trace[n], b)) <==> Undisturbed(trace, steps, i, j, b)
  {
    hide IssuerOk, Next, Enabled, Evicts, Revives, Barred, AlwaysRejected;
    forall n | i <= n <= j
      ensures AlwaysRejected(trace[n], b) <==> Barred(trace[n], b)
    {
      ExecutionOk(trace, steps, n);
      RejectedIffBarred(trace[n], b);
    }
    BarredIffUndisturbed(trace, steps, i, j, b);
  }

  // ---- Both disturbances happen ----

  lemma Call(
    trace: seq<Issuer>, steps: seq<Step>, step: Step, after: Issuer) returns (longer: seq<Issuer>, taken: seq<Step>)
    requires Execution(trace, steps) && Enabled(trace[|steps|], step) && Next(trace[|steps|], step) == after
    ensures Execution(longer, taken) && longer == trace + [after] && taken == steps + [step]
  {
    hide Next, Enabled;
    longer, taken := trace + [after], steps + [step];
  }

  /** The issuer that has retired these bearers and holds none. */
  function Holding(retired: set<string>): Issuer {
    Issuer(map[], {}, map[], retired)
  }

  /** A credential prepared and discarded leaves its bearer retired. */
  lemma RetireRun(trace: seq<Issuer>, steps: seq<Step>, c: Credential, evicted: string)
    returns (longer: seq<Issuer>, taken: seq<Step>)
    requires Execution(trace, steps) && c.bearer != "" && ValidRequest(c) && 0 < c.expiresAt
    requires var s := trace[|steps|];
             s == Holding(s.retired) && (|s.retired| >= MAX_CREDENTIALS ==> evicted in s.retired)
    ensures Execution(longer, taken) && trace <= longer
    ensures longer[|taken|] == Holding(Retire(trace[|steps|].retired, c.bearer, evicted))
  {
    var s := trace[|steps|];
    var p := Issuer(map[c.bearer := c], {c.bearer}, map[], s.retired);
    assert Expired(s, 0) == {};
    WithoutNone(s);
    longer, taken := Call(trace, steps, DoPrepare(c, 0), p);
    var r := Holding(Retire(s.retired, c.bearer, evicted));
    assert Discard(p, c, evicted) == r;
    longer, taken := Call(longer, taken, DoDiscard(c, evicted), r);
  }

  /** Requests that differ in their generation, with bearers of their own. */
  function Spare(k: nat): Credential {
    Credential(Name(k), "session", TargetRotation, "attach", "", k + 1, "rotation", "revocation", 1)
  }

  function Names(k: nat): set<string> {
    if k == 0 then {} else Names(k - 1) + {Name(k - 1)}
  }

  lemma {:induction false} NamesCount(k: nat)
    ensures |Names(k)| == k && forall b :: b in Names(k) ==> |b| <= k
  {
    if k > 0 {
      NamesCount(k - 1);
    }
  }

  lemma {:induction false} FirstName(k: nat)
    requires k > 0
    ensures Name(0) in Names(k)
  {
    if k > 1 {
      FirstName(k - 1);
    }
  }

  lemma SpareIsValid(k: nat)
    ensures ValidRequest(Spare(k)) && Spare(k).bearer == Name(k) != "" && 0 < Spare(k).expiresAt
  {
  }

  lemma FillStep(trace: seq<Issuer>, steps: seq<Step>, k: nat) returns (longer: seq<Issuer>, taken: seq<Step>)
    requires Execution(trace, steps) && trace[|steps|] == Holding(Names(k)) && k < MAX_CREDENTIALS
    ensures Execution(longer, taken) && longer[|taken|] == Holding(Names(k + 1))
  {
    SpareIsValid(k);
    NamesCount(k);
    hide Next, Enabled, ValidRequest, Spare, Name;
    longer, taken := RetireRun(trace, steps, Spare(k), "");
  }

  lemma {:induction false} FillRun(k: nat) returns (trace: seq<Issuer>, steps: seq<Step>)
    requires k <= MAX_CREDENTIALS
    ensures Execution(trace, steps) && trace[|steps|] == Holding(Names(k))
  {
    hide Next, Enabled, Name;
    if k == 0 {
      trace, steps := [Holding({})], [];
    } else {
      trace, steps := FillRun(k - 1);
      trace, steps := FillStep(trace, steps, k - 1);
    }
  }

  /** A run that fills the retired set: one more retirement evicts a bearer, and its seal alone decides again. */
  lemma EvictedBearerOpensAgain() returns (trace: seq<Issuer>, steps: seq<Step>, i: nat, b: string)
    ensures Execution(trace, steps) && i <= |steps| && b != "" && AlwaysRejected(trace[i], b)
    ensures forall now, unsealed :: Active(trace[|steps|], b, now, unsealed) == unsealed
  {
    var before, taken := FillRun(MAX_CREDENTIALS);
    i, b := |taken|, Name(0);
    NamesCount(MAX_CREDENTIALS);
    FirstName(MAX_CREDENTIALS);
    trace, steps := RetireRun(before, taken, Spare(MAX_CREDENTIALS), b);
    assert trace[i] == before[i];
  }

  /** A run that discards a credential, prepares the same one again and activates it: its bearer is accepted. */
  lemma RevivedBearerIsAccepted(c: Credential) returns (trace: seq<Issuer>, steps: seq<Step>, i: nat)
    requires c.bearer != "" && ValidRequest(c) && 0 < c.expiresAt
    ensures Execution(trace, steps) && i <= |steps| && AlwaysRejected(trace[i], c.bearer)
    ensures Active(trace[|steps|], c.bearer, 0, None) == Some(c)
  {
    trace, steps := FillRun(0);
    trace, steps := RetireRun(trace, steps, c, "");
    i := |steps|;
    var r := trace[i];
    var p := Issuer(map[c.bearer := c], {c.bearer}, map[], r.retired);
    assert Expired(r, 0) == {} && Expired(p, 0) == {};
    WithoutNone(r);
    WithoutNone(p);
    trace, steps := Call(trace, steps, DoPrepare(c, 0), p);
    var a := Issuer(map[c.bearer := c], {}, map[Lineage(c) := c.bearer], r.retired);
    assert Expired(a, 0) == {};
    WithoutNone(a);
    trace, steps := Call(trace, steps, DoActivate(c, 0, ""), a);
  }
}
