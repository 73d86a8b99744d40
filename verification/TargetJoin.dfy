/**
  Pending target joins: how the Hub hands a committed bearer to the socket of a joining worker. Each
  critical section under the join mutex is one step. The sole reader of the socket handles a Pong only
  while it is reading, and stops at the first data frame it decodes.

  Entries and deliveries are never removed from their histories; the two maps say which entries are
  registered.
*/
module TargetJoin {
  import opened Wrappers

  const MAX_PENDING := 64

  datatype Reader = NotStarted | Reading | Decoded | Observed

  /** `current` is the delivery whose nonce, frame and result channel the entry holds; `written` the frames sent. */
  datatype Entry = Entry(
    nonce: string, attachId: string, expiresAt: int, claimed: bool, inputObserved: bool, deliveryClaimed: bool,
    current: Option<nat>, reader: Reader, finished: bool, written: seq<nat>)

  /** `result` is what was sent on its channel, `outcome` what the delivering call returned; true is success. */
  datatype Delivery = Delivery(entry: nat, nonce: string, result: Option<bool>, outcome: Option<bool>)

  datatype Joins = Joins(
    entries: seq<Entry>, byNonce: map<string, nat>, byAttach: map<string, nat>, deliveries: seq<Delivery>)

  datatype Step =
    | Begin(nonce: string, attachId: string, expiresAt: int, now: int)
    | Cancel(attachId: string)
    | Expire(e: nat)
    | Claim(nonce: string, now: int)
    | StartReader(e: nat)
    | DecodeInput(e: nat)
    | ObserveInput(e: nat)
    | StartDelivery(e: nat, nonce: string)
    | Pong(e: nat, nonce: string, now: int, writes: bool)
    | TakeResult(d: nat)
    | GiveUp(d: nat)
    | Leave(e: nat)

  // ---- The critical sections ----

  predicate Registered(s: Joins, e: nat) {
    e < |s.entries| && s.entries[e].attachId in s.byAttach && s.byAttach[s.entries[e].attachId] == e
  }

  function Update(s: Joins, e: nat, entry: Entry): Joins
    requires e < |s.entries|
  {
    s.(entries := s.entries[e := entry])
  }

  function WithoutValue(m: map<string, nat>, e: nat): map<string, nat> {
    map k | k in m && m[k] != e :: m[k]
  }

  /** Finishes the entry and removes it from both maps. */
  function Forget(s: Joins, e: nat): Joins
    requires e < |s.entries|
  {
    var entry := s.entries[e];
    s.(entries := s.entries[e := entry.(finished := true)],
       byNonce := WithoutValue(s.byNonce, e),
       byAttach := if Registered(s, e) then s.byAttach - {entry.attachId} else s.byAttach)
  }

  function Expired(s: Joins, now: int): set<nat> {
    set k | k in s.byNonce && s.byNonce[k] < |s.entries| && s.entries[s.byNonce[k]].expiresAt <= now :: s.byNonce[k]
  }

  /** Forgets every entry of `gone`. */
  function Prune(s: Joins, gone: set<nat>): Joins {
    s.(entries := seq(|s.entries|, i requires 0 <= i < |s.entries| =>
         if i in gone then s.entries[i].(finished := true) else s.entries[i]),
       byNonce := map k | k in s.byNonce && s.byNonce[k] !in gone :: s.byNonce[k],
       byAttach := map a | a in s.byAttach && s.byAttach[a] !in gone :: s.byAttach[a])
  }

  function BeginNext(s: Joins, nonce: string, attachId: string, expiresAt: int, now: int): Joins {
    if expiresAt <= now then s
    else
      var p := Prune(s, Expired(s, now));
      if |p.byNonce| >= MAX_PENDING || attachId in p.byAttach then p
      else
        var e := |p.entries|;
        p.(entries := p.entries + [Entry(nonce, attachId, expiresAt, false, false, false, None, NotStarted, false, [])],
           byNonce := p.byNonce[nonce := e], byAttach := p.byAttach[attachId := e])
  }

  function ClaimNext(s: Joins, nonce: string, now: int): Joins {
    var p := Prune(s, Expired(s, now));
    if nonce !in p.byNonce || p.byNonce[nonce] >= |p.entries| then p
    else
      var e := p.byNonce[nonce];
      var entry := p.entries[e];
      if entry.claimed || entry.inputObserved || entry.deliveryClaimed || entry.expiresAt <= now then p
      else Update(p, e, entry.(claimed := true))
  }

  function SendResult(s: Joins, d: Option<nat>, ok: bool): Joins {
    if d.Some? && d.value < |s.deliveries| then
      s.(deliveries := s.deliveries[d.value := s.deliveries[d.value].(result := Some(ok))])
    else s
  }

  function ObserveNext(s: Joins, e: nat): Joins
    requires e < |s.entries|
  {
    var entry := s.entries[e];
    var seen := Update(s, e, entry.(reader := Observed));
    if !Registered(s, e) || entry.deliveryClaimed then seen
    else Forget(SendResult(Update(seen, e, entry.(reader := Observed, inputObserved := true)), entry.current, false), e)
  }

  function StartDeliveryNext(s: Joins, e: nat, nonce: string): Joins
    requires e < |s.entries|
  {
    var entry := s.entries[e];
    if !Registered(s, e) || entry.inputObserved || entry.deliveryClaimed || !entry.claimed then
      s.(deliveries := s.deliveries + [Delivery(e, nonce, None, Some(false))])
    else
      var s := Update(s, e, entry.(current := Some(|s.deliveries|)));
      s.(deliveries := s.deliveries + [Delivery(e, nonce, None, None)])
  }

  /** The Pong answers the delivery the entry now holds, and everything still allows it. */
  predicate Accepts(s: Joins, e: nat, nonce: string, now: int)
    requires e < |s.entries|
  {
    var entry := s.entries[e];
    && entry.current.Some? && entry.current.value < |s.deliveries| && s.deliveries[entry.current.value].nonce == nonce
    && Registered(s, e) && !entry.inputObserved && !entry.deliveryClaimed && entry.claimed && entry.expiresAt > now
  }

  function PongNext(s: Joins, e: nat, nonce: string, now: int, writes: bool): Joins
    requires e < |s.entries|
  {
    if !Accepts(s, e, nonce, now) then s
    else
      var entry := s.entries[e];
      var d := entry.current.value;
      var done := entry.(deliveryClaimed := true, written := if writes then entry.written + [d] else entry.written);
      Forget(SendResult(Update(s, e, done), entry.current, writes), e)
  }

  function Return(s: Joins, d: nat, ok: bool): Joins
    requires d < |s.deliveries|
  {
    s.(deliveries := s.deliveries[d := s.deliveries[d].(outcome := Some(ok))])
  }

  predicate Enabled(s: Joins, step: Step) {
    match step
    case Begin(nonce, _, _, _) => nonce !in s.byNonce
    case Cancel(_) => true
    case Expire(e) => e < |s.entries|
    case Claim(_, _) => true
    case StartReader(e) => e < |s.entries| && s.entries[e].reader.NotStarted?
    case DecodeInput(e) => e < |s.entries| && s.entries[e].reader.Reading?
    case ObserveInput(e) => e < |s.entries| && s.entries[e].reader.Decoded?
    case StartDelivery(e, nonce) =>
      e < |s.entries| && forall d :: 0 <= d < |s.deliveries| ==> s.deliveries[d].nonce != nonce
    case Pong(e, _, _, _) => e < |s.entries| && s.entries[e].reader.Reading?
    case TakeResult(d) => d < |s.deliveries| && s.deliveries[d].outcome.None? && s.deliveries[d].result.Some?
    case GiveUp(d) => d < |s.deliveries| && s.deliveries[d].outcome.None? && s.deliveries[d].entry < |s.entries|
    case Leave(e) => e < |s.entries|
  }

  function ForgetIfRegistered(s: Joins, e: nat): Joins {
    if Registered(s, e) then Forget(s, e) else s
  }

  function Next(s: Joins, step: Step): Joins
    requires Enabled(s, step)
  {
    match step
    case Begin(nonce, attachId, expiresAt, now) => BeginNext(s, nonce, attachId, expiresAt, now)
    case Cancel(attachId) => if attachId in s.byAttach then ForgetIfRegistered(s, s.byAttach[attachId]) else s
    case Expire(e) => ForgetIfRegistered(s, e)
    case Claim(nonce, now) => ClaimNext(s, nonce, now)
    case StartReader(e) =>
      if Registered(s, e) && s.entries[e].claimed then Update(s, e, s.entries[e].(reader := Reading)) else s
    case DecodeInput(e) => Update(s, e, s.entries[e].(reader := Decoded))
    case ObserveInput(e) => ObserveNext(s, e)
    case StartDelivery(e, nonce) => StartDeliveryNext(s, e, nonce)
    case Pong(e, nonce, now, writes) => PongNext(s, e, nonce, now, writes)
    case TakeResult(d) => Return(s, d, s.deliveries[d].result.value)
    case GiveUp(d) => Return(ForgetIfRegistered(s, s.deliveries[d].entry), d, false)
    case Leave(e) => Forget(s, e)
  }

  ghost predicate Execution(trace: seq<Joins>, steps: seq<Step>) {
    && |trace| == |steps| + 1 && trace[0] == Joins([], map[], map[], [])
    && forall i :: 0 <= i < |steps| ==> Enabled(trace[i], steps[i]) && trace[i + 1] == Next(trace[i], steps[i])
  }

  // ---- The invariant ----

  ghost predicate Filed(s: Joins, a: string, e: nat) {
    e < |s.entries| && s.entries[e].attachId == a && s.entries[e].nonce in s.byNonce &&
    s.byNonce[s.entries[e].nonce] == e
  }

  ghost predicate Pending(s: Joins, k: string, e: nat) {
    e < |s.entries| && s.entries[e].nonce == k && s.entries[e].attachId in s.byAttach &&
    s.byAttach[s.entries[e].attachId] == e
  }

  /** The two maps hold the same entries, each under its own nonce and its own attach ID. */
  ghost predicate MapsOk(s: Joins) {
    && (forall k :: k in s.byNonce ==> Pending(s, k, s.byNonce[k]))
    && (forall a :: a in s.byAttach ==> Filed(s, a, s.byAttach[a]))
    && |s.byNonce| <= MAX_PENDING
  }

  /** A registered entry has an empty result channel and has sent nothing; any entry sends at most one frame. */
  ghost predicate EntryOk(s: Joins, e: nat)
    requires e < |s.entries|
  {
    var entry := s.entries[e];
    && |entry.written| <= 1
    && (Registered(s, e) ==> !entry.inputObserved && !entry.deliveryClaimed && entry.written == [])
    && (entry.current.Some? ==> entry.current.value < |s.deliveries| && s.deliveries[entry.current.value].entry == e)
    && (Registered(s, e) && entry.current.Some? ==> s.deliveries[entry.current.value].result.None?)
  }

  ghost predicate DeliveryOk(s: Joins, d: nat)
    requires d < |s.deliveries|
  {
    var delivery := s.deliveries[d];
    && delivery.entry < |s.entries|
    && (delivery.result == Some(true) || delivery.outcome == Some(true) ==> d in s.entries[delivery.entry].written)
  }

  ghost predicate JoinsOk(s: Joins) {
    && MapsOk(s)
    && (forall e :: 0 <= e < |s.entries| ==> EntryOk(s, e))
    && (forall d :: 0 <= d < |s.deliveries| ==> DeliveryOk(s, d))
  }

  lemma UniqueNonce(s: Joins, e: nat)
    requires MapsOk(s) && e < |s.entries| && Registered(s, e)
    ensures WithoutValue(s.byNonce, e) == s.byNonce - {s.entries[e].nonce}
  {
  }

  lemma UnregisteredNonce(s: Joins, e: nat)
    requires MapsOk(s) && e < |s.entries| && !Registered(s, e)
    ensures WithoutValue(s.byNonce, e) == s.byNonce
  {
  }

  lemma ForgetOk(s: Joins, e: nat)
    requires MapsOk(s) && e < |s.entries|
    ensures MapsOk(Forget(s, e)) && !Registered(Forget(s, e), e)
    ensures forall i: nat :: i != e ==> (Registered(Forget(s, e), i) <==> Registered(s, i))
  {
    var s' := Forget(s, e);
    if Registered(s, e) {
      UniqueNonce(s, e);
    } else {
      UnregisteredNonce(s, e);
    }
    FewerKeys(s'.byNonce, s.byNonce);
    forall k | k in s'.byNonce
      ensures Pending(s', k, s'.byNonce[k])
    {
      assert Pending(s, k, s.byNonce[k]);
    }
    forall a | a in s'.byAttach
      ensures Filed(s', a, s'.byAttach[a])
    {
      assert Filed(s, a, s.byAttach[a]);
    }
  }

  lemma ForgetKeeps(s: Joins, e: nat)
    requires JoinsOk(s) && e < |s.entries|
    ensures JoinsOk(Forget(s, e))
  {
    ForgetOk(s, e);
    hide MapsOk;
    var s' := Forget(s, e);
    forall i | 0 <= i < |s'.entries|
      ensures EntryOk(s', i)
    {
      assert EntryOk(s, i);
    }
    forall d | 0 <= d < |s'.deliveries|
      ensures DeliveryOk(s', d)
    {
      assert DeliveryOk(s, d);
    }
  }

  /** An entry changed in place stays filed where it was. */
  lemma UpdateOk(s: Joins, e: nat, entry: Entry)
    requires MapsOk(s) && e < |s.entries| && entry.nonce == s.entries[e].nonce
    requires entry.attachId == s.entries[e].attachId
    ensures MapsOk(Update(s, e, entry))
    ensures forall i :: Registered(Update(s, e, entry), i) <==> Registered(s, i)
  {
    var s' := Update(s, e, entry);
    forall k | k in s'.byNonce
      ensures Pending(s', k, s'.byNonce[k])
    {
      assert Pending(s, k, s.byNonce[k]);
    }
    forall a | a in s'.byAttach
      ensures Filed(s', a, s'.byAttach[a])
    {
      assert Filed(s, a, s.byAttach[a]);
    }
  }

  /** A change of one entry that keeps what it sent, and keeps its own part of the invariant. */
  lemma UpdateKeeps(s: Joins, e: nat, entry: Entry)
    requires JoinsOk(s) && e < |s.entries| && entry.nonce == s.entries[e].nonce
    requires entry.attachId == s.entries[e].attachId
    requires s.entries[e].written <= entry.written && EntryOk(Update(s, e, entry), e)
    ensures JoinsOk(Update(s, e, entry))
  {
    UpdateOk(s, e, entry);
    hide MapsOk;
    var s' := Update(s, e, entry);
    forall i | 0 <= i < |s'.entries|
      ensures EntryOk(s', i)
    {
      assert EntryOk(s, i);
    }
    forall d | 0 <= d < |s'.deliveries|
      ensures DeliveryOk(s', d)
    {
      assert DeliveryOk(s, d);
    }
  }

  lemma PruneOk(s: Joins, gone: set<nat>)
    requires MapsOk(s)
    ensures MapsOk(Prune(s, gone))
    ensures forall i: nat :: Registered(Prune(s, gone), i) <==> Registered(s, i) && i !in gone
  {
    var p := Prune(s, gone);
    FewerKeys(p.byNonce, s.byNonce);
    forall k | k in p.byNonce
      ensures Pending(p, k, p.byNonce[k])
    {
      assert Pending(s, k, s.byNonce[k]);
    }
    forall a | a in p.byAttach
      ensures Filed(p, a, p.byAttach[a])
    {
      assert Filed(s, a, s.byAttach[a]);
    }
  }

  lemma FewerKeys(a: map<string, nat>, b: map<string, nat>)
    requires a.Keys <= b.Keys
    ensures |a| <= |b|
  {
    assert |a.Keys| + |b.Keys - a.Keys| == |b.Keys|;
  }

  lemma PruneKeeps(s: Joins, gone: set<nat>)
    requires JoinsOk(s)
    ensures JoinsOk(Prune(s, gone))
  {
    PruneOk(s, gone);
    hide MapsOk;
    var p := Prune(s, gone);
    forall i | 0 <= i < |p.entries|
      ensures EntryOk(p, i)
    {
      assert EntryOk(s, i);
    }
    forall d | 0 <= d < |p.deliveries|
      ensures DeliveryOk(p, d)
    {
      assert DeliveryOk(s, d);
    }
  }

  /** A new entry under a fresh nonce and a free attach ID. */
  lemma AddKeeps(s: Joins, entry: Entry)
    requires JoinsOk(s) && |s.byNonce| < MAX_PENDING && entry.nonce !in s.byNonce && entry.attachId !in s.byAttach
    requires entry.written == [] && entry.current.None? && !entry.inputObserved && !entry.deliveryClaimed
    ensures var e := |s.entries|;
            JoinsOk(s.(entries := s.entries + [entry], byNonce := s.byNonce[entry.nonce := e],
                       byAttach := s.byAttach[entry.attachId := e]))
  {
    var e := |s.entries|;
    var s' := s.(entries := s.entries + [entry], byNonce := s.byNonce[entry.nonce := e],
                 byAttach := s.byAttach[entry.attachId := e]);
    AddMaps(s, entry);
    hide MapsOk;
    forall i | 0 <= i < |s'.entries|
      ensures EntryOk(s', i)
    {
      assert i < e ==> EntryOk(s, i);
    }
    forall d | 0 <= d < |s'.deliveries|
      ensures DeliveryOk(s', d)
    {
      assert DeliveryOk(s, d);
    }
  }

  lemma AddMaps(s: Joins, entry: Entry)
    requires MapsOk(s) && |s.byNonce| < MAX_PENDING && entry.nonce !in s.byNonce && entry.attachId !in s.byAttach
    ensures var e := |s.entries|;
            MapsOk(s.(entries := s.entries + [entry], byNonce := s.byNonce[entry.nonce := e],
                      byAttach := s.byAttach[entry.attachId := e]))
  {
    var e := |s.entries|;
    var s' := s.(entries := s.entries + [entry], byNonce := s.byNonce[entry.nonce := e],
                 byAttach := s.byAttach[entry.attachId := e]);
    assert |s'.byNonce| == |s.byNonce| + 1;
    forall a | a in s'.byAttach
      ensures Filed(s', a, s'.byAttach[a])
    {
      assert a != entry.attachId ==> Filed(s, a, s.byAttach[a]);
    }
    forall k | k in s'.byNonce
      ensures Pending(s', k, s'.byNonce[k])
    {
      assert k != entry.nonce ==> Pending(s, k, s.byNonce[k]);
    }
  }

  /** An entry changed and forgotten in one critical section. */
  lemma ChangeAndForget(s: Joins, e: nat, entry: Entry)
    requires JoinsOk(s) && e < |s.entries|
    requires entry.nonce == s.entries[e].nonce && entry.attachId == s.entries[e].attachId
    requires entry.current == s.entries[e].current
    requires |entry.written| <= 1 && s.entries[e].written <= entry.written
    ensures JoinsOk(Forget(Update(s, e, entry), e)) && !Registered(Forget(Update(s, e, entry), e), e)
  {
    UpdateOk(s, e, entry);
    var u := Update(s, e, entry);
    ForgetOk(u, e);
    hide MapsOk;
    var s' := Forget(u, e);
    assert EntryOk(s, e);
    forall i | 0 <= i < |s'.entries|
      ensures EntryOk(s', i)
    {
      assert EntryOk(s, i);
    }
    forall d | 0 <= d < |s'.deliveries|
      ensures DeliveryOk(s', d)
    {
      assert DeliveryOk(s, d);
    }
  }

  lemma SendKeeps(s: Joins, d: nat, ok: bool)
    requires JoinsOk(s) && d < |s.deliveries| && s.deliveries[d].entry < |s.entries|
    requires !Registered(s, s.deliveries[d].entry) && (ok ==> d in s.entries[s.deliveries[d].entry].written)
    ensures JoinsOk(SendResult(s, Some(d), ok))
  {
    var s' := SendResult(s, Some(d), ok);
    SameMaps(s, s');
    hide MapsOk;
    forall i | 0 <= i < |s'.entries|
      ensures EntryOk(s', i)
    {
      assert EntryOk(s, i);
    }
    forall x | 0 <= x < |s'.deliveries|
      ensures DeliveryOk(s', x)
    {
      assert DeliveryOk(s, x);
    }
  }

  lemma SameMaps(s: Joins, s': Joins)
    requires MapsOk(s) && s'.entries == s.entries && s'.byNonce == s.byNonce && s'.byAttach == s.byAttach
    ensures MapsOk(s')
  {
    assert forall k :: k in s.byNonce ==> Pending(s, k, s.byNonce[k]);
    assert forall a :: a in s.byAttach ==> Filed(s, a, s.byAttach[a]);
  }

  /** Sending the verdict of a delivery and forgetting its entry in one critical section. */
  lemma SettleKeeps(s: Joins, e: nat, entry: Entry, ok: bool)
    requires JoinsOk(s) && e < |s.entries| && Registered(s, e)
    requires entry.nonce == s.entries[e].nonce && entry.attachId == s.entries[e].attachId
    requires entry.current == s.entries[e].current
    requires |entry.written| <= 1 && (ok ==> entry.current.Some? && entry.current.value in entry.written)
    ensures JoinsOk(Forget(SendResult(Update(s, e, entry), entry.current, ok), e))
  {
    hide JoinsOk;
    EntryIsOk(s, e);
    ChangeAndForget(s, e, entry);
    var f := Forget(Update(s, e, entry), e);
    if entry.current.Some? {
      SendKeeps(f, entry.current.value, ok);
      assert Forget(SendResult(Update(s, e, entry), entry.current, ok), e) == SendResult(f, entry.current, ok);
    }
  }

  lemma AddDeliveryKeeps(s: Joins, delivery: Delivery)
    requires JoinsOk(s) && delivery.entry < |s.entries| && delivery.result.None? && delivery.outcome != Some(true)
    ensures JoinsOk(s.(deliveries := s.deliveries + [delivery]))
  {
    var s' := s.(deliveries := s.deliveries + [delivery]);
    SameMaps(s, s');
    hide MapsOk;
    forall i | 0 <= i < |s'.entries|
      ensures EntryOk(s', i)
    {
      assert EntryOk(s, i);
    }
    forall d | 0 <= d < |s'.deliveries|
      ensures DeliveryOk(s', d)
    {
      assert d < |s.deliveries| ==> DeliveryOk(s, d);
    }
  }

  lemma ReturnKeeps(s: Joins, d: nat, ok: bool)
    requires JoinsOk(s) && d < |s.deliveries| && (ok ==> s.deliveries[d].result == Some(true))
    ensures JoinsOk(Return(s, d, ok))
  {
    var s' := Return(s, d, ok);
    SameMaps(s, s');
    hide MapsOk;
    forall i | 0 <= i < |s'.entries|
      ensures EntryOk(s', i)
    {
      assert EntryOk(s, i);
    }
    forall x | 0 <= x < |s'.deliveries|
      ensures DeliveryOk(s', x)
    {
      assert DeliveryOk(s, x);
    }
  }

  lemma StartDeliveryKeeps(s: Joins, e: nat, nonce: string)
    requires JoinsOk(s) && e < |s.entries|
    ensures JoinsOk(StartDeliveryNext(s, e, nonce))
  {
    hide JoinsOk, MapsOk;
    var entry := s.entries[e];
    if !Registered(s, e) || entry.inputObserved || entry.deliveryClaimed || !entry.claimed {
      AddDeliveryKeeps(s, Delivery(e, nonce, None, Some(false)));
    } else {
      var delivery := Delivery(e, nonce, None, None);
      AddDeliveryKeeps(s, delivery);
      var added := s.(deliveries := s.deliveries + [delivery]);
      assert EntryOk(added, e) by {
        EntryIsOk(added, e);
      }
      UpdateKeeps(added, e, entry.(current := Some(|s.deliveries|)));
    }
  }

  lemma EntryIsOk(s: Joins, e: nat)
    requires JoinsOk(s) && e < |s.entries|
    ensures EntryOk(s, e)
  {
  }

  lemma StepKeeps(s: Joins, step: Step)
    requires JoinsOk(s) && Enabled(s, step)
    ensures JoinsOk(Next(s, step))
  {
    hide JoinsOk, MapsOk, Prune, Forget;
    match step
    case Begin(nonce, attachId, expiresAt, now) =>
      var gone := Expired(s, now);
      PruneKeeps(s, gone);
      if nonce !in Prune(s, gone).byNonce && attachId !in Prune(s, gone).byAttach &&
         |Prune(s, gone).byNonce| < MAX_PENDING {
        AddKeeps(Prune(s, gone), Entry(nonce, attachId, expiresAt, false, false, false, None, NotStarted, false, []));
      }
      PrunedNonce(s, gone, nonce);
    case Cancel(attachId) =>
      if attachId in s.byAttach && Registered(s, s.byAttach[attachId]) {
        ForgetKeeps(s, s.byAttach[attachId]);
      }
    case Expire(e) => ForgetKeeps(s, e);
    case Claim(nonce, now) =>
      var p := Prune(s, Expired(s, now));
      PruneKeeps(s, Expired(s, now));
      if nonce in p.byNonce && p.byNonce[nonce] < |p.entries| {
        EntryIsOk(p, p.byNonce[nonce]);
        UpdateKeeps(p, p.byNonce[nonce], p.entries[p.byNonce[nonce]].(claimed := true));
      }
    case StartReader(e) =>
      EntryIsOk(s, e);
      UpdateKeeps(s, e, s.entries[e].(reader := Reading));
    case DecodeInput(e) =>
      EntryIsOk(s, e);
      UpdateKeeps(s, e, s.entries[e].(reader := Decoded));
    case ObserveInput(e) => ObserveKeeps(s, e);
    case StartDelivery(e, nonce) => StartDeliveryKeeps(s, e, nonce);
    case Pong(e, nonce, now, writes) => PongKeeps(s, e, nonce, now, writes);
    case TakeResult(d) => ReturnKeeps(s, d, s.deliveries[d].result.value);
    case GiveUp(d) => GiveUpKeeps(s, d);
    case Leave(e) => ForgetKeeps(s, e);
  }

  lemma PrunedNonce(s: Joins, gone: set<nat>, nonce: string)
    ensures nonce !in s.byNonce ==> nonce !in Prune(s, gone).byNonce
  {
  }

  lemma ObserveKeeps(s: Joins, e: nat)
    requires JoinsOk(s) && e < |s.entries|
    ensures JoinsOk(ObserveNext(s, e))
  {
    hide JoinsOk, MapsOk, Forget;
    var entry := s.entries[e];
    EntryIsOk(s, e);
    if !Registered(s, e) || entry.deliveryClaimed {
      UpdateKeeps(s, e, entry.(reader := Observed));
    } else {
      var seen := entry.(reader := Observed, inputObserved := true);
      SettleKeeps(s, e, seen, false);
      assert Update(Update(s, e, entry.(reader := Observed)), e, seen) == Update(s, e, seen);
    }
  }

  lemma PongKeeps(s: Joins, e: nat, nonce: string, now: int, writes: bool)
    requires JoinsOk(s) && e < |s.entries|
    ensures JoinsOk(PongNext(s, e, nonce, now, writes))
  {
    hide JoinsOk, MapsOk, Forget;
    if Accepts(s, e, nonce, now) {
      var entry := s.entries[e];
      EntryIsOk(s, e);
      var d := entry.current.value;
      assert entry.written == [];
      var done := entry.(deliveryClaimed := true, written := if writes then entry.written + [d] else entry.written);
      assert writes ==> d in done.written;
      SettleKeeps(s, e, done, writes);
    }
  }

  lemma GiveUpKeeps(s: Joins, d: nat)
    requires JoinsOk(s) && Enabled(s, GiveUp(d))
    ensures JoinsOk(Next(s, GiveUp(d)))
  {
    hide JoinsOk, MapsOk;
    var e := s.deliveries[d].entry;
    ForgetKeeps(s, e);
    var f := ForgetIfRegistered(s, e);
    ReturnKeeps(f, d, false);
  }

  lemma {:induction false} ExecutionOk(trace: seq<Joins>, steps: seq<Step>, n: nat)
    requires Execution(trace, steps) && n < |trace|
    ensures JoinsOk(trace[n])
    decreases n
  {
    if n > 0 {
      ExecutionOk(trace, steps, n - 1);
      StepKeeps(trace[n - 1], steps[n - 1]);
    }
  }

  // ---- Main results ----

  lemma {:induction false} InjectiveSize(m: map<string, nat>)
    requires forall k, l :: k in m && l in m && m[k] == m[l] ==> k == l
    ensures |m| == |m.Values|
    decreases |m|
  {
    if m != map[] {
      var k :| k in m;
      var rest := m - {k};
      InjectiveSize(rest);
      assert m == rest[k := m[k]];
      forall v | v in m.Values
        ensures v in rest.Values + {m[k]}
      {
        var l :| l in m && m[l] == v;
        assert l != k ==> l in rest && rest[l] == v;
      }
      forall v | v in rest.Values
        ensures v in m.Values && v != m[k]
      {
        var l :| l in rest && rest[l] == v;
        assert l in m;
      }
      assert m[k] in m.Values;
      assert m.Values == rest.Values + {m[k]};
    }
  }

  /** In every reachable state the two maps hold the same entries, at most sixty-four of them. */
  lemma MapsInBijection(trace: seq<Joins>, steps: seq<Step>, n: nat)
    requires Execution(trace, steps) && n < |trace|
    ensures var s := trace[n];
            && s.byNonce.Values == s.byAttach.Values && |s.byNonce| == |s.byAttach| <= MAX_PENDING
            && (forall k :: k in s.byNonce ==> Pending(s, k, s.byNonce[k]))
            && (forall a :: a in s.byAttach ==> Filed(s, a, s.byAttach[a]))
  {
    ExecutionOk(trace, steps, n);
    var s := trace[n];
    forall e | e in s.byNonce.Values
      ensures e in s.byAttach.Values
    {
      var k :| k in s.byNonce && s.byNonce[k] == e;
      assert Pending(s, k, e);
    }
    forall e | e in s.byAttach.Values
      ensures e in s.byNonce.Values
    {
      var a :| a in s.byAttach && s.byAttach[a] == e;
      assert Filed(s, a, e);
    }
    InjectiveSize(s.byNonce);
    InjectiveSize(s.byAttach);
  }

  lemma ForgetChangesNothingElse(s: Joins, x: nat, e: nat)
    requires x < |s.entries| && e < |s.entries|
    ensures |Forget(s, x).entries| == |s.entries| && Forget(s, x).deliveries == s.deliveries
    ensures Forget(s, x).entries[e].written == s.entries[e].written
    ensures Forget(s, x).entries[e].reader == s.entries[e].reader
  {
  }

  lemma PruneChangesNothingElse(s: Joins, gone: set<nat>, e: nat)
    requires e < |s.entries|
    ensures |Prune(s, gone).entries| == |s.entries|
    ensures Prune(s, gone).entries[e].written == s.entries[e].written
    ensures Prune(s, gone).entries[e].reader == s.entries[e].reader
  {
  }

  /** The reader has decoded a data frame. */
  predicate HasDecoded(entry: Entry) {
    entry.reader.Decoded? || entry.reader.Observed?
  }

  /**
    A frame is written only by an accepted Pong, while the entry's reader is reading; a reader that
    decoded a data frame does not read again.
  */
  lemma StepWrites(s: Joins, step: Step, e: nat)
    requires Enabled(s, step) && e < |s.entries|
    ensures var s' := Next(s, step);
            && e < |s'.entries|
            && (s'.entries[e].written != s.entries[e].written ==>
                  step.Pong? && step.e == e && s.entries[e].reader.Reading? && Accepts(s, e, step.nonce, step.now) &&
                  step.writes)
            && (HasDecoded(s.entries[e]) ==> HasDecoded(s'.entries[e]))
  {
    hide Forget, Prune;
    match step
    case Begin(_, _, _, now) => PruneChangesNothingElse(s, Expired(s, now), e);
    case Cancel(attachId) =>
      if attachId in s.byAttach && Registered(s, s.byAttach[attachId]) {
        ForgetChangesNothingElse(s, s.byAttach[attachId], e);
      }
    case Expire(x) => ForgetChangesNothingElse(s, x, e);
    case Claim(_, now) => PruneChangesNothingElse(s, Expired(s, now), e);
    case StartReader(_) =>
    case DecodeInput(_) =>
    case ObserveInput(x) =>
      var seen := s.entries[x].(reader := Observed, inputObserved := true);
      ForgetChangesNothingElse(SendResult(Update(s, x, seen), seen.current, false), x, e);
      assert Update(Update(s, x, s.entries[x].(reader := Observed)), x, seen) == Update(s, x, seen);
    case StartDelivery(_, _) =>
    case Pong(x, nonce, now, writes) =>
      if Accepts(s, x, nonce, now) {
        var entry := s.entries[x];
        var done := entry.(deliveryClaimed := true,
                           written := if writes then entry.written + [entry.current.value] else entry.written);
        ForgetChangesNothingElse(SendResult(Update(s, x, done), entry.current, writes), x, e);
      }
    case TakeResult(_) =>
    case GiveUp(d) => ForgetChangesNothingElse(s, s.deliveries[d].entry, e);
    case Leave(x) => ForgetChangesNothingElse(s, x, e);
  }

  /**
    In every run the frame that a step writes is that of the delivery whose own nonce the Pong echoes: it
    belongs to that entry, its result was still open, and the entry was registered and not expired.
  */
  lemma OwnPongReleases(trace: seq<Joins>, steps: seq<Step>, n: nat, e: nat) returns (d: nat)
    requires Execution(trace, steps) && n < |steps| && e < |trace[n].entries| && e < |trace[n + 1].entries|
    requires trace[n + 1].entries[e].written != trace[n].entries[e].written
    ensures trace[n].entries[e].written == [] && trace[n + 1].entries[e].written == [d]
    ensures d < |trace[n].deliveries| && trace[n].deliveries[d].entry == e && trace[n].deliveries[d].result.None?
    ensures steps[n].Pong? && steps[n].e == e && steps[n].nonce == trace[n].deliveries[d].nonce
    ensures steps[n].now < trace[n].entries[e].expiresAt
    ensures Registered(trace[n], e) && trace[n].entries[e].reader.Reading?
  {
    ExecutionOk(trace, steps, n);
    var s, step := trace[n], steps[n];
    EntryIsOk(s, e);
    StepWrites(s, step, e);
    d := s.entries[e].current.value;
    PongWrites(s, e, step.nonce, step.now);
    hide JoinsOk, MapsOk, Forget;
  }

  lemma PongWrites(s: Joins, e: nat, nonce: string, now: int)
    requires e < |s.entries| && Accepts(s, e, nonce, now)
    ensures e < |PongNext(s, e, nonce, now, true).entries|
    ensures PongNext(s, e, nonce, now, true).entries[e].written == s.entries[e].written + [s.entries[e].current.value]
  {
  }

  /** An entry that left the maps does not come back. */
  lemma StaysUnregistered(s: Joins, step: Step, e: nat)
    requires Enabled(s, step) && e < |s.entries| && !Registered(s, e)
    ensures !Registered(Next(s, step), e)
  {
    if step.Begin? {
      BeginRegistersNew(s, step, e);
    } else {
      hide WithoutValue, Accepts, Expired;
    }
  }

  lemma BeginRegistersNew(s: Joins, step: Step, e: nat)
    requires Enabled(s, step) && step.Begin? && e < |s.entries| && !Registered(s, e)
    ensures !Registered(Next(s, step), e)
  {
    hide Expired;
  }

  /**
    Once the reader has decoded a data frame, or the entry is no longer registered because it was
    observed, expired, cancelled, settled or left, no run writes to that socket again.
  */
  lemma {:induction false} NoLaterWrite(trace: seq<Joins>, steps: seq<Step>, i: nat, j: nat, e: nat)
    requires Execution(trace, steps) && i <= j < |trace| && e < |trace[i].entries|
    requires !Registered(trace[i], e) || HasDecoded(trace[i].entries[e])
    ensures e < |trace[j].entries| && trace[j].entries[e].written == trace[i].entries[e].written
    ensures !Registered(trace[j], e) || HasDecoded(trace[j].entries[e])
    decreases j
  {
    hide Next, Enabled, Registered, JoinsOk;
    if i < j {
      NoLaterWrite(trace, steps, i, j - 1, e);
      var s, step := trace[j - 1], steps[j - 1];
      StepWrites(s, step, e);
      if !Registered(s, e) {
        StaysUnregistered(s, step, e);
      }
    }
  }

  /**
    In every reachable state at most one frame was written for an entry, never while it is registered,
    and a delivery that succeeded is the one that was written.
  */
  lemma DeliveredOnce(trace: seq<Joins>, steps: seq<Step>, n: nat, d: nat)
    requires Execution(trace, steps) && n < |trace| && d < |trace[n].deliveries|
    ensures var s, e := trace[n], trace[n].deliveries[d].entry;
            && e < |s.entries| && |s.entries[e].written| <= 1 && (Registered(s, e) ==> s.entries[e].written == [])
            && (s.deliveries[d].outcome == Some(true) ==> s.entries[e].written == [d])
  {
    ExecutionOk(trace, steps, n);
    assert DeliveryOk(trace[n], d);
    assert EntryOk(trace[n], trace[n].deliveries[d].entry);
  }

  lemma StepSendsOnce(s: Joins, step: Step, d: nat)
    requires JoinsOk(s) && Enabled(s, step) && d < |s.deliveries|
    ensures d < |Next(s, step).deliveries|
    ensures s.deliveries[d].result.Some? ==> Next(s, step).deliveries[d].result == s.deliveries[d].result
  {
    if step.ObserveInput? || step.Pong? {
      EntryIsOk(s, step.e);
    }
    hide JoinsOk, MapsOk;
  }

  /** A result channel has room for one value, and in no run is a second one ever sent on it. */
  lemma {:induction false} ResultSentOnce(trace: seq<Joins>, steps: seq<Step>, i: nat, j: nat, d: nat)
    requires Execution(trace, steps) && i <= j < |trace| && d < |trace[i].deliveries|
    requires trace[i].deliveries[d].result.Some?
    ensures d < |trace[j].deliveries| && trace[j].deliveries[d].result == trace[i].deliveries[d].result
    decreases j
  {
    hide Next, Enabled, JoinsOk;
    if i < j {
      ResultSentOnce(trace, steps, i, j - 1, d);
      ExecutionOk(trace, steps, j - 1);
      StepSendsOnce(trace[j - 1], steps[j - 1], d);
    }
  }

  // ---- What a delivery is told ----

  /**
    The step settles the delivery: an accepted Pong tells it whether its frame was written, and an observed
    input tells it that the join failed.
  */
  predicate Answers(s: Joins, step: Step, d: nat, ok: bool) {
    match step
    case Pong(e, nonce, now, writes) =>
      e < |s.entries| && Accepts(s, e, nonce, now) && s.entries[e].current == Some(d) && writes == ok
    case ObserveInput(e) =>
      Registered(s, e) && !s.entries[e].deliveryClaimed && s.entries[e].current == Some(d) && !ok
    case _ => false
  }

  lemma StepAnswers(s: Joins, step: Step, d: nat, ok: bool)
    requires JoinsOk(s) && Enabled(s, step) && d < |Next(s, step).deliveries|
    ensures Next(s, step).deliveries[d].result == Some(ok) <==>
            (d < |s.deliveries| && s.deliveries[d].result == Some(ok)) || Answers(s, step, d, ok)
  {
    if step.ObserveInput? {
      ObserveAnswers(s, step.e, d, ok);
    } else if step.Pong? {
      PongAnswers(s, step.e, step.nonce, step.now, step.writes, d, ok);
    } else {
      OthersAnswerNothing(s, step, d);
    }
    hide JoinsOk, Next, Registered, Accepts;
  }

  lemma OthersAnswerNothing(s: Joins, step: Step, d: nat)
    requires Enabled(s, step) && !step.ObserveInput? && !step.Pong? && d < |Next(s, step).deliveries|
    ensures Next(s, step).deliveries[d].result == if d < |s.deliveries| then s.deliveries[d].result else None
  {
  }

  lemma PongAnswers(s: Joins, e: nat, nonce: string, now: int, writes: bool, d: nat, ok: bool)
    requires JoinsOk(s) && e < |s.entries| && d < |PongNext(s, e, nonce, now, writes).deliveries|
    ensures PongNext(s, e, nonce, now, writes).deliveries[d].result == Some(ok) <==>
            (d < |s.deliveries| && s.deliveries[d].result == Some(ok)) ||
            Answers(s, Pong(e, nonce, now, writes), d, ok)
  {
    EntryIsOk(s, e);
    hide JoinsOk, MapsOk;
  }

  lemma ObserveAnswers(s: Joins, e: nat, d: nat, ok: bool)
    requires JoinsOk(s) && e < |s.entries| && d < |ObserveNext(s, e).deliveries|
    ensures ObserveNext(s, e).deliveries[d].result == Some(ok) <==>
            (d < |s.deliveries| && s.deliveries[d].result == Some(ok)) || Answers(s, ObserveInput(e), d, ok)
  {
    EntryIsOk(s, e);
    hide JoinsOk, MapsOk;
  }

  ghost predicate AnsweredAt(trace: seq<Joins>, steps: seq<Step>, j: nat, d: nat, ok: bool)
    requires j < |trace| && j < |steps|
  {
    Answers(trace[j], steps[j], d, ok)
  }

  /** The call that delivers returns: with its result, or because it was refused or gave up. */
  predicate Returns(s: Joins, step: Step, d: nat, ok: bool) {
    match step
    case TakeResult(x) => x == d < |s.deliveries| && s.deliveries[d].result == Some(ok)
    case GiveUp(x) => x == d && !ok
    case StartDelivery(e, _) =>
      d == |s.deliveries| && !ok && e < |s.entries| &&
      (!Registered(s, e) || s.entries[e].inputObserved || s.entries[e].deliveryClaimed || !s.entries[e].claimed)
    case _ => false
  }

  lemma StepReturns(s: Joins, step: Step, d: nat, ok: bool)
    requires Enabled(s, step) && d < |Next(s, step).deliveries|
    ensures Next(s, step).deliveries[d].outcome == Some(ok) <==>
            (d < |s.deliveries| && s.deliveries[d].outcome == Some(ok)) || Returns(s, step, d, ok)
  {
  }

  ghost predicate ReturnedAt(trace: seq<Joins>, steps: seq<Step>, j: nat, d: nat, ok: bool)
    requires j < |trace| && j < |steps|
  {
    Returns(trace[j], steps[j], d, ok)
  }

  lemma DeliveriesStay(s: Joins, step: Step)
    requires Enabled(s, step)
    ensures |s.deliveries| <= |Next(s, step).deliveries|
    ensures forall d :: 0 <= d < |s.deliveries| ==> Next(s, step).deliveries[d].entry == s.deliveries[d].entry
  {
  }

  /** A delivery has been sent a result exactly when an earlier step settled it that way. */
  lemma {:induction false} ResultIff(trace: seq<Joins>, steps: seq<Step>, n: nat, d: nat, ok: bool)
    requires Execution(trace, steps) && n < |trace| && d < |trace[n].deliveries|
    ensures trace[n].deliveries[d].result == Some(ok) <==> exists j: nat :: j < n && AnsweredAt(trace, steps, j, d, ok)
    decreases n
  {
    hide Next, Enabled, JoinsOk;
    if n > 0 {
      var s, step := trace[n - 1], steps[n - 1];
      ExecutionOk(trace, steps, n - 1);
      StepAnswers(s, step, d, ok);
      if d < |s.deliveries| {
        ResultIff(trace, steps, n - 1, d, ok);
      } else {
        NothingBefore(trace, steps, n - 1, d, ok);
      }
      assert AnsweredAt(trace, steps, n - 1, d, ok) == Answers(s, step, d, ok);
      hide AnsweredAt, Execution;
    }
  }

  /** No step settles a delivery before it is there, nor does its call return. */
  lemma {:induction false} NothingBefore(trace: seq<Joins>, steps: seq<Step>, n: nat, d: nat, ok: bool)
    requires Execution(trace, steps) && n < |trace| && d >= |trace[n].deliveries|
    ensures forall j: nat :: j < n ==> !AnsweredAt(trace, steps, j, d, ok) && !ReturnedAt(trace, steps, j, d, ok)
    decreases n
  {
    hide Next, Enabled, JoinsOk, Answers, Returns;
    if n > 0 {
      NoneYetAt(trace, steps, n - 1, d, ok);
      NothingBefore(trace, steps, n - 1, d, ok);
      hide Execution, AnsweredAt, ReturnedAt;
    }
  }

  lemma NoneYetAt(trace: seq<Joins>, steps: seq<Step>, j: nat, d: nat, ok: bool)
    requires Execution(trace, steps) && j < |steps| && d >= |trace[j + 1].deliveries|
    ensures d >= |trace[j].deliveries| && !AnsweredAt(trace, steps, j, d, ok) && !ReturnedAt(trace, steps, j, d, ok)
  {
    hide Next, Enabled, JoinsOk, Answers, Returns;
    ExecutionOk(trace, steps, j);
    DeliveriesStay(trace[j], steps[j]);
    NoneYet(trace[j], steps[j], d, ok);
  }

  lemma NoneYet(s: Joins, step: Step, d: nat, ok: bool)
    requires JoinsOk(s) && Enabled(s, step) && d >= |Next(s, step).deliveries|
    ensures !Answers(s, step, d, ok) && !Returns(s, step, d, ok)
  {
    DeliveriesStay(s, step);
    if step.StartDelivery? {
      assert |StartDeliveryNext(s, step.e, step.nonce).deliveries| == |s.deliveries| + 1;
    } else if step.ObserveInput? || step.Pong? {
      EntryIsOk(s, step.e);
      hide Next, JoinsOk, Registered;
    } else {
      hide Next, JoinsOk;
    }
  }

  /** The delivering call has returned exactly when an earlier step made it return that. */
  lemma {:induction false} OutcomeIff(trace: seq<Joins>, steps: seq<Step>, n: nat, d: nat, ok: bool)
    requires Execution(trace, steps) && n < |trace| && d < |trace[n].deliveries|
    ensures trace[n].deliveries[d].outcome == Some(ok) <==> exists j: nat :: j < n && ReturnedAt(trace, steps, j, d, ok)
    decreases n
  {
    hide Next, Enabled, JoinsOk;
    if n > 0 {
      var s, step := trace[n - 1], steps[n - 1];
      StepReturns(s, step, d, ok);
      if d < |s.deliveries| {
        OutcomeIff(trace, steps, n - 1, d, ok);
      } else {
        NothingBefore(trace, steps, n - 1, d, ok);
      }
      assert ReturnedAt(trace, steps, n - 1, d, ok) == Returns(s, step, d, ok);
      hide ReturnedAt, Execution;
    }
  }

  /** A frame was written on a socket exactly for the deliveries of that socket which were told so. */
  lemma {:induction false} WrittenIffTold(trace: seq<Joins>, steps: seq<Step>, n: nat, e: nat, d: nat)
    requires Execution(trace, steps) && n < |trace| && e < |trace[n].entries| && d < |trace[n].deliveries|
    ensures d in trace[n].entries[e].written <==>
            trace[n].deliveries[d].entry == e && trace[n].deliveries[d].result == Some(true)
    decreases n
  {
    ExecutionOk(trace, steps, n);
    assert DeliveryOk(trace[n], d);
    hide JoinsOk, Next, Enabled;
    if d in trace[n].entries[e].written {
      WrittenIsTold(trace, steps, n, e, d);
    }
  }

  lemma {:induction false} WrittenIsTold(trace: seq<Joins>, steps: seq<Step>, n: nat, e: nat, d: nat)
    requires Execution(trace, steps) && n < |trace| && e < |trace[n].entries| && d in trace[n].entries[e].written
    ensures d < |trace[n].deliveries| && trace[n].deliveries[d].entry == e
    ensures trace[n].deliveries[d].result == Some(true)
    decreases n
  {
    hide JoinsOk, Next, Enabled;
    assert n > 0;
    var s, step := trace[n - 1], steps[n - 1];
    ExecutionOk(trace, steps, n - 1);
    if e < |s.entries| && d in s.entries[e].written {
      WrittenIsTold(trace, steps, n - 1, e, d);
    }
    StepTells(s, step, e, d);
  }

  /** What a step writes it tells at once, and what was told before stays told. */
  lemma StepTells(s: Joins, step: Step, e: nat, d: nat)
    requires JoinsOk(s) && Enabled(s, step)
    requires e < |Next(s, step).entries| && d in Next(s, step).entries[e].written
    requires e < |s.entries| && d in s.entries[e].written ==>
               d < |s.deliveries| && s.deliveries[d].entry == e && s.deliveries[d].result == Some(true)
    ensures d < |Next(s, step).deliveries| && Next(s, step).deliveries[d].entry == e
    ensures Next(s, step).deliveries[d].result == Some(true)
  {
    DeliveriesStay(s, step);
    NewEntryIsBlank(s, step, e);
    StepWrites(s, step, e);
    if d !in s.entries[e].written {
      EntryIsOk(s, e);
      PongWrites(s, e, step.nonce, step.now);
    }
    StepAnswers(s, step, d, true);
    hide JoinsOk, Next, Registered;
  }

  lemma NewEntryIsBlank(s: Joins, step: Step, e: nat)
    requires Enabled(s, step) && e < |Next(s, step).entries|
    ensures e < |s.entries| || Next(s, step).entries[e].written == []
  {
    if !step.Begin? {
      EntriesStay(s, step);
    }
    hide WithoutValue, Expired, Registered, Accepts;
  }

  lemma EntriesStay(s: Joins, step: Step)
    requires Enabled(s, step) && !step.Begin?
    ensures |Next(s, step).entries| == |s.entries|
  {
    hide WithoutValue, Expired;
  }
}
