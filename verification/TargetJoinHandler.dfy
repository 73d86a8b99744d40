/** The pending-join operations as the Hub runs them under its mutex, updating flags and maps in place. */
module TargetJoinHandler {
  import opened Wrappers
  import opened TargetJoin

  /** Pruning leaves each kept entry where it was, so forgetting one more is pruning one more. */
  lemma PruneOneMore(s: Joins, done: set<nat>, e: nat)
    requires MapsOk(s) && Registered(s, e) && e !in done
    ensures e < |Prune(s, done).entries| && Forget(Prune(s, done), e) == Prune(s, done + {e})
  {
    var p, q := Prune(s, done), Prune(s, done + {e});
    assert s.entries[e].attachId in p.byAttach;
    OwnAttachId(s, e);
    assert WithoutValue(p.byNonce, e) == q.byNonce;
    assert p.byAttach - {s.entries[e].attachId} == q.byAttach;
    assert p.entries[e := p.entries[e].(finished := true)] == q.entries;
  }

  lemma OwnAttachId(s: Joins, e: nat)
    requires MapsOk(s) && Registered(s, e)
    ensures forall a :: a in s.byAttach && s.byAttach[a] == e ==> a == s.entries[e].attachId
  {
    assert forall a :: a in s.byAttach ==> Filed(s, a, s.byAttach[a]);
  }

  lemma BeginKeeps(s: Joins, nonce: string, attachId: string, expiresAt: int, now: int)
    requires JoinsOk(s) && nonce !in s.byNonce
    ensures JoinsOk(BeginNext(s, nonce, attachId, expiresAt, now))
  {
    hide JoinsOk, BeginNext;
    StepKeeps(s, Begin(nonce, attachId, expiresAt, now));
  }

  lemma ClaimKeeps(s: Joins, nonce: string, now: int)
    requires JoinsOk(s)
    ensures JoinsOk(ClaimNext(s, nonce, now))
  {
    hide JoinsOk, ClaimNext;
    StepKeeps(s, Claim(nonce, now));
  }

  lemma PendingIsOk(s: Joins, nonce: string)
    requires JoinsOk(s) && nonce in s.byNonce
    ensures Pending(s, nonce, s.byNonce[nonce])
  {
  }

  lemma PrunedSize(s: Joins, gone: set<nat>)
    ensures |Prune(s, gone).entries| == |s.entries|
  {
  }

  lemma PruneNone(s: Joins)
    ensures Prune(s, {}) == s
  {
    assert Prune(s, {}).entries == s.entries;
    assert Prune(s, {}).byNonce == s.byNonce && Prune(s, {}).byAttach == s.byAttach;
  }

  class PendingTargetJoins {
    var entries: seq<Entry>
    var byNonce: map<string, nat>
    var byAttach: map<string, nat>
    var deliveries: seq<Delivery>

    function View(): Joins
      reads this
    {
      Joins(entries, byNonce, byAttach, deliveries)
    }

    ghost predicate Valid()
      reads this
    {
      JoinsOk(View())
    }

    constructor ()
      ensures Valid() && View() == Joins([], map[], map[], [])
    {
      entries, byNonce, byAttach, deliveries := [], map[], map[], [];
    }

    method Forget(e: nat)
      requires e < |entries|
      modifies this
      ensures View() == TargetJoin.Forget(old(View()), e)
    {
      var registered := Registered(View(), e);
      var attachId := entries[e].attachId;
      entries := entries[e := entries[e].(finished := true)];
      var left := byNonce.Keys;
      ghost var before := byNonce;
      while left != {}
        invariant left <= before.Keys
        invariant byNonce == map k | k in before && (k in left || before[k] != e) :: before[k]
        invariant entries == old(entries)[e := old(entries)[e].(finished := true)]
        invariant byAttach == old(byAttach) && deliveries == old(deliveries)
        decreases |left|
      {
        var nonce :| nonce in left;
        if byNonce[nonce] == e {
          byNonce := byNonce - {nonce};
        }
        left := left - {nonce};
      }
      assert byNonce == WithoutValue(before, e);
      if registered {
        byAttach := byAttach - {attachId};
      }
    }

    /** Forgets every entry that is past its deadline. */
    method PruneExpired(now: int)
      requires Valid()
      modifies this
      ensures Valid() && View() == Prune(old(View()), Expired(old(View()), now))
    {
      ghost var s := View();
      PruneNone(s);
      ghost var gone: set<nat> := {};
      var left := byNonce.Keys;
      while left != {}
        invariant View() == Prune(s, gone) && JoinsOk(s)
        invariant left <= s.byNonce.Keys && gone <= Expired(s, now)
        invariant forall k :: k in s.byNonce && k !in left && s.byNonce[k] in Expired(s, now) ==> s.byNonce[k] in gone
        invariant forall k :: k in left ==> s.byNonce[k] !in gone
        decreases |left|
      {
        var nonce :| nonce in left;
        ghost var e := s.byNonce[nonce];
        assert Pending(s, nonce, e);
        assert byNonce[nonce] == e;
        if entries[byNonce[nonce]].expiresAt <= now {
          PruneOneMore(s, gone, e);
          Forget(byNonce[nonce]);
          gone := gone + {e};
          forall k | k in left - {nonce}
            ensures s.byNonce[k] != e
          {
            assert Pending(s, k, s.byNonce[k]);
          }
        }
        left := left - {nonce};
      }
      assert gone == Expired(s, now);
      PruneKeeps(s, gone);
    }

    /** Registers a join, unless it is expired, the table is full or the attach ID is taken. */
    method Begin(nonce: string, attachId: string, expiresAt: int, now: int) returns (ok: bool)
      requires Valid() && nonce !in byNonce
      modifies this
      ensures Valid() && View() == BeginNext(old(View()), nonce, attachId, expiresAt, now)
      ensures ok ==> Registered(View(), |old(entries)|)
    {
      hide JoinsOk, Prune, Expired;
      BeginKeeps(View(), nonce, attachId, expiresAt, now);
      PrunedSize(View(), Expired(View(), now));
      if expiresAt <= now {
        return false;
      }
      PruneExpired(now);
      if |byNonce| >= MAX_PENDING || attachId in byAttach {
        return false;
      }
      var e := |entries|;
      entries := entries + [Entry(nonce, attachId, expiresAt, false, false, false, None, NotStarted, false, [])];
      byNonce := byNonce[nonce := e];
      byAttach := byAttach[attachId := e];
      ok := true;
    }

    /** Binds the socket that presents the nonce. */
    method Claim(nonce: string, now: int) returns (r: Option<nat>)
      requires Valid()
      modifies this
      ensures Valid() && View() == ClaimNext(old(View()), nonce, now)
      ensures r.Some? ==>
                r.value < |entries| && entries[r.value].claimed && entries[r.value].nonce == nonce &&
                Registered(View(), r.value)
    {
      hide JoinsOk, Prune, Expired;
      ClaimKeeps(View(), nonce, now);
      PruneExpired(now);
      if nonce !in byNonce {
        return None;
      }
      PendingIsOk(View(), nonce);
      var e := byNonce[nonce];
      var entry := entries[e];
      if entry.claimed || entry.inputObserved || entry.deliveryClaimed || entry.expiresAt <= now {
        return None;
      }
      entries := entries[e := entry.(claimed := true)];
      return Some(e);
    }

    /** The reader stopped at a data frame or an error. */
    method ObserveInput(e: nat)
      requires Valid() && e < |entries|
      modifies this
      ensures Valid() && View() == ObserveNext(old(View()), e)
    {
      ObserveKeeps(View(), e);
      hide JoinsOk, TargetJoin.Forget;
      var registered := Registered(View(), e);
      entries := entries[e := entries[e].(reader := Observed)];
      if !registered || entries[e].deliveryClaimed {
        return;
      }
      entries := entries[e := entries[e].(inputObserved := true)];
      SetResult(entries[e].current, false);
      Forget(e);
    }

    method SetResult(d: Option<nat>, ok: bool)
      modifies this
      ensures View() == SendResult(old(View()), d, ok)
    {
      if d.Some? && d.value < |deliveries| {
        deliveries := deliveries[d.value := deliveries[d.value].(result := Some(ok))];
      }
    }

    /** Arms the barrier: only the Pong that echoes `nonce` can now release the bearer. */
    method StartDelivery(e: nat, nonce: string) returns (ok: bool)
      requires Valid() && e < |entries|
      modifies this
      ensures Valid() && View() == StartDeliveryNext(old(View()), e, nonce)
      ensures ok <==> entries[e].current == Some(|old(deliveries)|)
    {
      StartDeliveryKeeps(View(), e, nonce);
      EntryIsOk(View(), e);
      hide JoinsOk;
      var entry := entries[e];
      if !Registered(View(), e) || entry.inputObserved || entry.deliveryClaimed || !entry.claimed {
        deliveries := deliveries + [Delivery(e, nonce, None, Some(false))];
        return false;
      }
      entries := entries[e := entry.(current := Some(|deliveries|))];
      deliveries := deliveries + [Delivery(e, nonce, None, None)];
      return true;
    }

    /** A Pong reached the reader; `writes` says whether the bearer frame could be written. */
    method CompleteDelivery(e: nat, nonce: string, now: int, writes: bool)
      requires Valid() && e < |entries|
      modifies this
      ensures Valid() && View() == PongNext(old(View()), e, nonce, now, writes)
    {
      hide JoinsOk, TargetJoin.Forget;
      PongKeeps(View(), e, nonce, now, writes);
      if !Accepts(View(), e, nonce, now) {
        return;
      }
      var d := entries[e].current;
      entries := entries[e := entries[e].(deliveryClaimed := true)];
      if writes {
        entries := entries[e := entries[e].(written := entries[e].written + [d.value])];
      }
      ghost var entry := old(entries)[e];
      ghost var written := if writes then entry.written + [d.value] else entry.written;
      assert entries == old(entries)[e := entry.(deliveryClaimed := true, written := written)];
      SetResult(d, writes);
      Forget(e);
    }
  }
}
