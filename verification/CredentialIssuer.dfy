/**
  The in-memory issuer of session credentials: prepared, pending, active and retired bearers. Sealing
  is abstract: a credential carries its bearer, and `unsealed` is what the seal of a bearer opens to.
*/
module CredentialIssuer {
  import opened Wrappers

  const MAX_CREDENTIALS := 128

  datatype Kind = BootstrapInitial | TargetAttach | TargetRotation

  datatype Credential = Credential(
    bearer: string, session: string, kind: Kind, attachId: string, jti: string,
    generation: int, rotationId: string, revocationId: string, expiresAt: int)

  datatype Issuer = Issuer(
    prepared: map<string, Credential>, pending: set<string>, active: map<string, string>, retired: set<string>)

  const MAX_STRING_BYTES := 256

  /** What a request must be like before it is sealed; its expiry is checked besides. Field values are bytes. */
  predicate ValidRequest(c: Credential) {
    && c.session != "" && c.generation >= 1 && c.rotationId != "" && c.revocationId != ""
    && |c.session| <= MAX_STRING_BYTES && |c.attachId| <= MAX_STRING_BYTES && |c.jti| <= MAX_STRING_BYTES
    && |c.rotationId| <= MAX_STRING_BYTES && |c.revocationId| <= MAX_STRING_BYTES
    && match c.kind {
         case BootstrapInitial => c.attachId == "" && c.jti == ""
         case TargetAttach => c.attachId != "" && c.jti != ""
         case TargetRotation => c.attachId != "" && c.jti == ""
       }
  }

  // ---- Lineage keys ----

  const SEPARATOR: char := 0 as char

  function KindName(kind: Kind): string {
    match kind
    case BootstrapInitial => "bootstrap_initial"
    case TargetAttach => "target_attach"
    case TargetRotation => "target_rotation"
  }

  function Key(session: string, kind: Kind): string {
    session + [SEPARATOR] + KindName(kind)
  }

  function Lineage(c: Credential): string {
    Key(c.session, c.kind)
  }

  lemma KindNames(kind: Kind)
    ensures SEPARATOR !in KindName(kind)
  {
    assert forall i :: 0 <= i < |KindName(kind)| ==> KindName(kind)[i] != SEPARATOR;
  }

  /** The part after the last separator is the kind, whatever the session ID holds. */
  lemma KeyIsInjective(s1: string, k1: Kind, s2: string, k2: Kind)
    requires Key(s1, k1) == Key(s2, k2)
    ensures s1 == s2 && k1 == k2
  {
    KindNames(k1);
    KindNames(k2);
    SplitAtSeparator(s1, KindName(k1), s2, KindName(k2));
  }

  /** What follows the last separator. */
  function AfterLast(key: string): string {
    if key == [] || key[|key| - 1] == SEPARATOR then [] else AfterLast(key[..|key| - 1]) + [key[|key| - 1]]
  }

  lemma {:induction false} AfterLastIs(a: string, b: string)
    requires SEPARATOR !in b
    ensures AfterLast(a + [SEPARATOR] + b) == b
  {
    if b != [] {
      var front, last := b[..|b| - 1], b[|b| - 1];
      assert last in b && forall ch :: ch in front ==> ch in b;
      var key := a + [SEPARATOR] + b;
      assert key[..|key| - 1] == a + [SEPARATOR] + front && key[|key| - 1] == last;
      AfterLastIs(a, front);
    }
  }

  lemma SplitAtSeparator(a: string, b: string, c: string, d: string)
    requires SEPARATOR !in b && SEPARATOR !in d && a + [SEPARATOR] + b == c + [SEPARATOR] + d
    ensures a == c && b == d
  {
    AfterLastIs(a, b);
    AfterLastIs(c, d);
    assert a == (a + [SEPARATOR] + b)[..|a|];
    assert c == (c + [SEPARATOR] + d)[..|c|];
  }

  // ---- The issuer's calls ----

  function Expired(s: Issuer, now: int): set<string> {
    set b | b in s.prepared && s.prepared[b].expiresAt <= now
  }

  /** The issuer without the bearers of `gone`. */
  function Without(s: Issuer, gone: set<string>): Issuer {
    s.(prepared := s.prepared - gone, pending := s.pending - gone,
       active := map k | k in s.active && s.active[k] !in gone :: s.active[k])
  }

  function DropExpired(s: Issuer, now: int): Issuer {
    Without(s, Expired(s, now))
  }

  /** `evicted` is the bearer dropped to make room, when the set is full. */
  function Retire(retired: set<string>, bearer: string, evicted: string): set<string> {
    if bearer == "" then retired
    else (if |retired| >= MAX_CREDENTIALS then retired - {evicted} else retired) + {bearer}
  }

  predicate Known(s: Issuer, c: Credential) {
    c.bearer in s.prepared && s.prepared[c.bearer] == c
  }

  function Prepare(s: Issuer, c: Credential, now: int): Issuer {
    var s := DropExpired(s, now);
    if c.bearer in s.prepared || |s.prepared| >= MAX_CREDENTIALS then s
    else s.(prepared := s.prepared[c.bearer := c], pending := s.pending + {c.bearer})
  }

  predicate Activates(s: Issuer, c: Credential, now: int) {
    c.bearer != "" && Known(DropExpired(s, now), c)
  }

  /** The bearer that activating `c` replaces. */
  function Predecessor(s: Issuer, c: Credential): Option<string> {
    if Lineage(c) in s.active && s.active[Lineage(c)] != c.bearer then Some(s.active[Lineage(c)]) else None
  }

  function Activate(s: Issuer, c: Credential, now: int, evicted: string): Issuer {
    if c.bearer == "" then s
    else
      var s := DropExpired(s, now);
      if !Known(s, c) then s
      else
        var current := Predecessor(s, c);
        var s := if current.None? then s
                 else s.(retired := Retire(s.retired, current.value, evicted),
                         prepared := s.prepared - {current.value});
        s.(pending := s.pending - {c.bearer}, active := s.active[Lineage(c) := c.bearer])
  }

  predicate Validates(s: Issuer, c: Credential, now: int) {
    c.bearer != "" && c.expiresAt > now && Known(DropExpired(s, now), c)
  }

  function Discard(s: Issuer, c: Credential, evicted: string): Issuer {
    if c.bearer == "" || !Known(s, c) then s
    else
      var ends := Lineage(c) in s.active && s.active[Lineage(c)] == c.bearer;
      s.(prepared := s.prepared - {c.bearer}, pending := s.pending - {c.bearer},
         retired := Retire(s.retired, c.bearer, evicted),
         active := if ends then s.active - {Lineage(c)} else s.active)
  }

  /** The credential a bearer stands for, when it is accepted. */
  function Active(s: Issuer, bearer: string, now: int, unsealed: Option<Credential>): Option<Credential> {
    if bearer == "" then None
    else
      var s := DropExpired(s, now);
      if bearer in s.prepared then
        var c := s.prepared[bearer];
        if Lineage(c) in s.active && s.active[Lineage(c)] == bearer then Some(c) else None
      else if bearer in s.retired then None
      else unsealed
  }

  // ---- Runs ----

  datatype Step =
    | DoPrepare(c: Credential, now: int)
    | DoActivate(c: Credential, now: int, evicted: string)
    | DoValidate(c: Credential, now: int)
    | DoDiscard(c: Credential, evicted: string)
    | DoActive(bearer: string, now: int)

  /**
    A full retired set evicts one of its members. Only a valid request is sealed and gets as far as the issuer's
    maps, and sealing never yields an empty bearer.
  */
  predicate Enabled(s: Issuer, step: Step) {
    match step
    case DoPrepare(c, _) => c.bearer != "" && ValidRequest(c)
    case DoActivate(_, _, evicted) => |s.retired| >= MAX_CREDENTIALS ==> evicted in s.retired
    case DoValidate(_, _) => true
    case DoDiscard(_, evicted) => |s.retired| >= MAX_CREDENTIALS ==> evicted in s.retired
    case DoActive(_, _) => true
  }

  function Next(s: Issuer, step: Step): Issuer {
    match step
    case DoPrepare(c, now) => Prepare(s, c, now)
    case DoActivate(c, now, evicted) => Activate(s, c, now, evicted)
    case DoValidate(c, now) => if c.bearer == "" || c.expiresAt <= now then s else DropExpired(s, now)
    case DoDiscard(c, evicted) => Discard(s, c, evicted)
    case DoActive(bearer, now) => if bearer == "" then s else DropExpired(s, now)
  }

  ghost predicate Execution(trace: seq<Issuer>, steps: seq<Step>) {
    && |trace| == |steps| + 1 && trace[0] == Issuer(map[], {}, map[], {})
    && forall i :: 0 <= i < |steps| ==> Enabled(trace[i], steps[i]) && trace[i + 1] == Next(trace[i], steps[i])
  }

  // ---- The invariant ----

  ghost predicate Filed(s: Issuer, k: string, b: string) {
    b in s.prepared && b !in s.pending && Lineage(s.prepared[b]) == k
  }

  ghost predicate IssuerOk(s: Issuer) {
    && (forall b :: b in s.prepared ==> b != "" && s.prepared[b].bearer == b && ValidRequest(s.prepared[b]))
    && s.pending <= s.prepared.Keys
    && (forall k :: k in s.active ==> Filed(s, k, s.active[k]))
    && (forall b :: b in s.prepared && b !in s.pending ==>
          Lineage(s.prepared[b]) in s.active && s.active[Lineage(s.prepared[b])] == b)
    && |s.prepared| <= MAX_CREDENTIALS && |s.retired| <= MAX_CREDENTIALS
  }

  lemma FewerKeys<T>(a: map<string, T>, b: map<string, T>)
    requires a.Keys <= b.Keys
    ensures |a| <= |b|
  {
    assert |a.Keys| + |b.Keys - a.Keys| == |b.Keys|;
  }

  lemma WithoutOk(s: Issuer, gone: set<string>)
    requires IssuerOk(s)
    ensures IssuerOk(Without(s, gone))
  {
    var s' := Without(s, gone);
    FewerKeys(s'.prepared, s.prepared);
    forall k | k in s'.active
      ensures Filed(s', k, s'.active[k])
    {
      assert Filed(s, k, s.active[k]);
    }
  }

  lemma DropExpiredOk(s: Issuer, now: int)
    requires IssuerOk(s)
    ensures IssuerOk(DropExpired(s, now))
  {
    WithoutOk(s, Expired(s, now));
  }

  lemma RetireBound(retired: set<string>, bearer: string, evicted: string)
    requires |retired| <= MAX_CREDENTIALS && (|retired| >= MAX_CREDENTIALS ==> evicted in retired)
    ensures |Retire(retired, bearer, evicted)| <= MAX_CREDENTIALS
  {
  }

  lemma PrepareOk(s: Issuer, c: Credential, now: int)
    requires IssuerOk(s) && c.bearer != "" && ValidRequest(c)
    ensures IssuerOk(Prepare(s, c, now))
  {
    hide DropExpired, Lineage, ValidRequest;
    DropExpiredOk(s, now);
    var d := DropExpired(s, now);
    var s' := Prepare(s, c, now);
    forall k | k in s'.active
      ensures Filed(s', k, s'.active[k])
    {
      assert Filed(d, k, d.active[k]);
    }
  }

  /** Activating a known credential over a state without expired ones. */
  lemma ActivateKnownOk(s: Issuer, c: Credential, evicted: string, s': Issuer)
    requires IssuerOk(s) && Known(s, c) && (|s.retired| >= MAX_CREDENTIALS ==> evicted in s.retired)
    requires var p := Predecessor(s, c);
             && s'.prepared == (if p.None? then s.prepared else s.prepared - {p.value})
             && s'.retired == (if p.None? then s.retired else Retire(s.retired, p.value, evicted))
             && s'.pending == s.pending - {c.bearer} && s'.active == s.active[Lineage(c) := c.bearer]
    ensures IssuerOk(s')
  {
    FewerKeys(s'.prepared, s.prepared);
    var p := Predecessor(s, c);
    if p.Some? {
      assert Filed(s, Lineage(c), p.value);
      RetireBound(s.retired, p.value, evicted);
    }
    forall k | k in s'.active
      ensures Filed(s', k, s'.active[k])
    {
      if k != Lineage(c) {
        assert Filed(s, k, s.active[k]);
      }
    }
  }

  lemma DiscardOk(s: Issuer, c: Credential, evicted: string)
    requires IssuerOk(s) && (|s.retired| >= MAX_CREDENTIALS ==> evicted in s.retired)
    ensures IssuerOk(Discard(s, c, evicted))
  {
    var s' := Discard(s, c, evicted);
    FewerKeys(s'.prepared, s.prepared);
    RetireBound(s.retired, c.bearer, evicted);
    forall k | k in s'.active
      ensures Filed(s', k, s'.active[k])
    {
      assert Filed(s, k, s.active[k]);
    }
  }

  lemma StepOk(s: Issuer, step: Step)
    requires IssuerOk(s) && Enabled(s, step)
    ensures IssuerOk(Next(s, step))
  {
    hide IssuerOk, DropExpired, Discard, Prepare, ValidRequest;
    match step
    case DoPrepare(c, now) => PrepareOk(s, c, now);
    case DoActivate(c, now, evicted) =>
      DropExpiredOk(s, now);
      var d := DropExpired(s, now);
      assert d.retired == s.retired by {
        DropKeepsRetired(s, now);
      }
      if c.bearer != "" && Known(d, c) {
        ActivateKnownOk(d, c, evicted, Activate(s, c, now, evicted));
      }
    case DoValidate(_, now) => DropExpiredOk(s, now);
    case DoDiscard(c, evicted) => DiscardOk(s, c, evicted);
    case DoActive(_, now) => DropExpiredOk(s, now);
  }

  lemma DropKeepsRetired(s: Issuer, now: int)
    ensures DropExpired(s, now).retired == s.retired
  {
  }

  /**
    In every reachable state: an active bearer is prepared, not pending and filed under its own lineage
    key; pending bearers are prepared; every prepared bearer is pending or active; both stores are bounded.
  */
  lemma {:induction false} ExecutionOk(trace: seq<Issuer>, steps: seq<Step>, n: nat)
    requires Execution(trace, steps) && n < |trace|
    ensures IssuerOk(trace[n])
    decreases n
  {
    if n > 0 {
      ExecutionOk(trace, steps, n - 1);
      StepOk(trace[n - 1], steps[n - 1]);
    }
  }

  // ---- Preflight ----

  /** The call is about another bearer, and comes before `c` expires. */
  predicate Elsewhere(step: Step, c: Credential) {
    match step
    case DoPrepare(other, now) => other.bearer != c.bearer && now < c.expiresAt
    case DoActivate(other, now, _) => other.bearer != c.bearer && now < c.expiresAt
    case DoValidate(_, now) => now < c.expiresAt
    case DoDiscard(other, _) => other.bearer != c.bearer
    case DoActive(_, now) => now < c.expiresAt
  }

  predicate Preflighted(s: Issuer, c: Credential) {
    Known(s, c) && c.bearer in s.pending
  }

  lemma StaysPreflighted(s: Issuer, step: Step, c: Credential)
    requires IssuerOk(s) && Enabled(s, step) && Preflighted(s, c) && Elsewhere(step, c)
    ensures Preflighted(Next(s, step), c)
  {
    hide Lineage, DropExpired, IssuerOk, ValidRequest;
    if !step.DoDiscard? {
      DropKeepsPending(s, step.now, c);
    }
    if step.DoActivate? {
      DropExpiredOk(s, step.now);
      PredecessorNotPending(DropExpired(s, step.now), step.c);
    }
  }

  /** What an activation replaces was active, so it was not pending. */
  lemma PredecessorNotPending(s: Issuer, c: Credential)
    requires IssuerOk(s)
    ensures Predecessor(s, c).Some? ==> Filed(s, Lineage(c), Predecessor(s, c).value) && Predecessor(s, c).value != ""
  {
    hide ValidRequest;
  }

  lemma DropKeepsPending(s: Issuer, now: int, c: Credential)
    requires Preflighted(s, c) && now < c.expiresAt
    ensures Preflighted(DropExpired(s, now), c)
  {
  }

  // ---- Activation ----

  /** Activation makes the credential the accepted one of its lineage and at once rejects its predecessor. */
  lemma ActivationReplaces(
    s: Issuer, c: Credential, now: int, evicted: string, unsealed: Option<Credential>, later: int)
    requires IssuerOk(s) && Activates(s, c, now) && later < c.expiresAt
    ensures var s' := Activate(s, c, now, evicted);
            && Active(s', c.bearer, later, unsealed) == Some(c)
            && (Lineage(c) in DropExpired(s, now).active && DropExpired(s, now).active[Lineage(c)] != c.bearer ==>
                  Active(s', DropExpired(s, now).active[Lineage(c)], later, unsealed) == None)
  {
    hide Lineage, ValidRequest;
    DropExpiredOk(s, now);
    PredecessorNotPending(DropExpired(s, now), c);
  }

  /** A bearer that is prepared and not yet activated is not accepted. */
  lemma PreparedIsNotAccepted(s: Issuer, c: Credential, now: int, unsealed: Option<Credential>, later: int)
    requires IssuerOk(s) && c.bearer != "" && c.bearer !in DropExpired(s, now).prepared
    requires |DropExpired(s, now).prepared| < MAX_CREDENTIALS
    requires later < c.expiresAt
    ensures var s' := Prepare(s, c, now);
            Preflighted(s', c) && Activates(s', c, later) && Active(s', c.bearer, later, unsealed) == None
  {
    hide Lineage, ValidRequest;
    DropExpiredOk(s, now);
    var d := DropExpired(s, now);
    assert forall k :: k in d.active ==> Filed(d, k, d.active[k]);
  }

  /** A discarded bearer, pending or active, is rejected at once. */
  lemma DiscardRejects(s: Issuer, c: Credential, evicted: string, unsealed: Option<Credential>, later: int)
    requires IssuerOk(s) && c.bearer != "" && Known(s, c)
    ensures var s' := Discard(s, c, evicted);
            c.bearer !in s'.prepared && c.bearer !in s'.pending && Active(s', c.bearer, later, unsealed) == None
  {
    hide Lineage, ValidRequest;
  }

  // ---- The issuer as it updates its maps in place ----

  lemma WithoutNone(s: Issuer)
    ensures Without(s, {}) == s
  {
    assert s.prepared - {} == s.prepared;
    assert Without(s, {}).active == s.active;
  }

  lemma StillThere(s: Issuer, gone: set<string>, b: string)
    requires b in s.prepared && b !in gone
    ensures b in Without(s, gone).prepared && Without(s, gone).prepared[b] == s.prepared[b]
  {
  }

  lemma WithoutMore(s: Issuer, gone: set<string>, b: string)
    requires IssuerOk(s) && b in s.prepared && b !in gone
    ensures var w, k := Without(s, gone), Lineage(s.prepared[b]);
            var active := if k in w.active && w.active[k] == b then w.active - {k} else w.active;
            Without(s, gone + {b}) == w.(prepared := w.prepared - {b}, pending := w.pending - {b}, active := active)
  {
    hide Lineage, ValidRequest;
    OwnKey(s, b);
    var w, k := Without(s, gone), Lineage(s.prepared[b]);
    assert w.prepared - {b} == s.prepared - (gone + {b});
    assert w.pending - {b} == s.pending - (gone + {b});
    assert Without(s, gone + {b}).active == if k in w.active && w.active[k] == b then w.active - {k} else w.active;
  }

  class LocalSessionCredentialIssuer {
    var prepared: map<string, Credential>
    var pending: set<string>
    var active: map<string, string>
    var retired: set<string>

    function View(): Issuer
      reads this
    {
      Issuer(prepared, pending, active, retired)
    }

    ghost predicate Valid()
      reads this
    {
      IssuerOk(View())
    }

    constructor ()
      ensures Valid() && View() == Issuer(map[], {}, map[], {})
    {
      prepared, pending, active, retired := map[], {}, map[], {};
    }

    method DiscardExpired(now: int)
      requires Valid()
      modifies this
      ensures Valid() && View() == DropExpired(old(View()), now)
    {
      hide IssuerOk, Without, Lineage;
      ghost var s, gone := View(), {};
      WithoutNone(s);
      var left := prepared.Keys;
      while left != {}
        invariant View() == Without(s, gone) && left <= s.prepared.Keys && left !! gone && gone <= s.prepared.Keys
        invariant forall b :: b in s.prepared && b !in left ==> (b in gone <==> s.prepared[b].expiresAt <= now)
        decreases |left|
      {
        var bearer :| bearer in left;
        StillThere(s, gone, bearer);
        var c := prepared[bearer];
        if c.expiresAt <= now {
          WithoutMore(s, gone, bearer);
          prepared := prepared - {bearer};
          pending := pending - {bearer};
          if Lineage(c) in active && active[Lineage(c)] == bearer {
            active := active - {Lineage(c)};
          }
          gone := gone + {bearer};
        }
        left := left - {bearer};
      }
      assert gone == Expired(s, now);
      DropExpiredOk(s, now);
    }

    method RetireBearer(bearer: string) returns (ghost evicted: string)
      modifies this`retired
      ensures |old(retired)| >= MAX_CREDENTIALS && bearer != "" ==> evicted in old(retired)
      ensures retired == Retire(old(retired), bearer, evicted)
    {
      evicted := "";
      if bearer == "" {
        return;
      }
      if |retired| >= MAX_CREDENTIALS {
        assert retired != {};
        var victim :| victim in retired;
        retired := retired - {victim};
        evicted := victim;
      }
      retired := retired + {bearer};
    }

    /** `checked` is the time at which the request is validated; `c.bearer` is what sealing it yields. */
    method PrepareCredential(c: Credential, checked: int, now: int) returns (r: Option<Credential>)
      requires Valid() && c.bearer != ""
      modifies this
      ensures Valid()
      ensures !ValidRequest(c) || c.expiresAt <= checked ==> r.None? && View() == old(View())
      ensures ValidRequest(c) && c.expiresAt > checked ==>
                View() == Prepare(old(View()), c, now) && (r.Some? <==> c.bearer in prepared)
      ensures r.Some? ==> c.bearer in prepared && prepared[c.bearer] == r.value
    {
      hide IssuerOk, DropExpired;
      if !ValidRequest(c) || c.expiresAt <= checked {
        return None;
      }
      PrepareOk(View(), c, now);
      DiscardExpired(now);
      if c.bearer in prepared {
        return Some(prepared[c.bearer]);
      }
      if |prepared| >= MAX_CREDENTIALS {
        return None;
      }
      prepared := prepared[c.bearer := c];
      pending := pending + {c.bearer};
      return Some(c);
    }

    method ActivateCredential(c: Credential, now: int) returns (ok: bool, ghost evicted: string)
      requires Valid()
      modifies this
      ensures Valid() && View() == Activate(old(View()), c, now, evicted)
      ensures ok == Activates(old(View()), c, now)
    {
      hide IssuerOk, DropExpired, Lineage;
      evicted := "";
      if c.bearer == "" {
        return false, evicted;
      }
      DiscardExpired(now);
      ghost var d := View();
      PredecessorNotPending(d, c);
      if c.bearer !in prepared || prepared[c.bearer] != c {
        return false, evicted;
      }
      if Lineage(c) in active && active[Lineage(c)] != c.bearer {
        var current := active[Lineage(c)];
        evicted := RetireBearer(current);
        prepared := prepared - {current};
      }
      pending := pending - {c.bearer};
      active := active[Lineage(c) := c.bearer];
      ok := true;
      if Predecessor(d, c).Some? || |d.retired| < MAX_CREDENTIALS {
        ActivateKnownOk(d, c, evicted, View());
      } else {
        var any :| any in d.retired;
        ActivateKnownOk(d, c, any, View());
      }
    }

    method DiscardCredential(c: Credential) returns (ghost evicted: string)
      requires Valid()
      modifies this
      ensures Valid() && View() == Discard(old(View()), c, evicted)
    {
      hide IssuerOk, Lineage;
      ghost var s := View();
      evicted := "";
      if c.bearer == "" || c.bearer !in prepared || prepared[c.bearer] != c {
        return;
      }
      prepared := prepared - {c.bearer};
      pending := pending - {c.bearer};
      evicted := RetireBearer(c.bearer);
      if Lineage(c) in active && active[Lineage(c)] == c.bearer {
        active := active - {Lineage(c)};
      }
      DiscardOk(s, c, evicted);
    }

    method ActiveCredential(bearer: string, now: int, unsealed: Option<Credential>) returns (r: Option<Credential>)
      requires Valid()
      modifies this
      ensures Valid() && r == Active(old(View()), bearer, now, unsealed)
      ensures View() == Next(old(View()), DoActive(bearer, now))
    {
      hide IssuerOk, DropExpired, Lineage;
      if bearer == "" {
        return None;
      }
      DiscardExpired(now);
      if bearer in prepared {
        var c := prepared[bearer];
        if Lineage(c) in active && active[Lineage(c)] == bearer {
          return Some(c);
        }
        return None;
      }
      if bearer in retired {
        return None;
      }
      return unsealed;
    }
  }

  /** A bearer is active under its own lineage only. */
  lemma OwnKey(s: Issuer, b: string)
    requires IssuerOk(s) && b in s.prepared
    ensures forall k :: k in s.active && s.active[k] == b ==> k == Lineage(s.prepared[b])
  {
    assert forall k :: k in s.active ==> Filed(s, k, s.active[k]);
  }
}
