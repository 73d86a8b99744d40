/**
  One client's subscription to one Session: the state that `clientConnection` keeps per Session,
  the decisions it takes under its mutex, and the connection object itself.

  A durable event is identified by its Hub-issued sequence number; an ephemeral event by its type
  and an opaque body.
*/
module Subscriptions {
  const MAX_REPLAY_BUFFERED_EVENTS := 1024

  datatype Event = Durable(seqNo: nat) | Ephemeral(kind: string, body: int)

  datatype Subscription = Subscription(
    lastSeq: nat,
    replaying: bool,
    buffered: seq<Event>,
    bufferedEphemerals: map<string, nat>)

  /** The index map points at exactly the ephemeral entries, one per type, and the buffer is bounded. */
  ghost predicate WellFormed(s: Subscription) {
    && |s.buffered| <= MAX_REPLAY_BUFFERED_EVENTS
    && (forall k :: k in s.bufferedEphemerals ==>
          s.bufferedEphemerals[k] < |s.buffered| &&
          s.buffered[s.bufferedEphemerals[k]].Ephemeral? && s.buffered[s.bufferedEphemerals[k]].kind == k)
    && (forall i :: 0 <= i < |s.buffered| && s.buffered[i].Ephemeral? ==>
          s.buffered[i].kind in s.bufferedEphemerals && s.bufferedEphemerals[s.buffered[i].kind] == i)
    && (!s.replaying ==> s.buffered == [])
  }

  function Joined(lastSeq: nat): Subscription {
    Subscription(lastSeq, true, [], map[])
  }

  // ---- Decisions taken under the connection mutex ----

  /** What the locked section of `sendLiveEvent` decides. */
  datatype Verdict = Keep | Overflow | Stale | Deliver

  predicate Coalesces(s: Subscription, ev: Event) {
    ev.Ephemeral? && ev.kind in s.bufferedEphemerals
  }

  function Judge(s: Subscription, ev: Event): Verdict {
    if s.replaying then
      if Coalesces(s, ev) || |s.buffered| < MAX_REPLAY_BUFFERED_EVENTS then Keep else Overflow
    else if ev.Durable? && ev.seqNo <= s.lastSeq then Stale
    else Deliver
  }

  function Replace(events: seq<Event>, i: nat, ev: Event): seq<Event> {
    if i < |events| then events[i := ev] else events
  }

  /** The subscription after the locked section: a kept event is buffered, or replaces its type's entry. */
  function Offer(s: Subscription, ev: Event): Subscription {
    if Judge(s, ev) != Keep then s
    else if Coalesces(s, ev) then s.(buffered := Replace(s.buffered, s.bufferedEphemerals[ev.kind], ev))
    else s.(buffered := s.buffered + [ev],
            bufferedEphemerals := if ev.Ephemeral? then s.bufferedEphemerals[ev.kind := |s.buffered|]
                                  else s.bufferedEphemerals)
  }

  function MarkSent(s: Subscription, ev: Event): Subscription {
    if ev.Durable? && ev.seqNo > s.lastSeq then s.(lastSeq := ev.seqNo) else s
  }

  /** One locked section of `finishReplay`: take the buffer, or leave replay mode when it is empty. */
  function TakeBuffer(s: Subscription): Subscription {
    s.(buffered := [], bufferedEphemerals := map[], replaying := s.buffered != [] && s.replaying)
  }

  lemma OfferKeepsWellFormed(s: Subscription, ev: Event)
    requires WellFormed(s)
    ensures WellFormed(Offer(s, ev))
  {
  }

  // ---- What a replaying subscription holds ----

  predicate SameKind(a: Event, b: Event) {
    a.Ephemeral? && b.Ephemeral? && a.kind == b.kind
  }

  /** The event is durable, or the first ephemeral of its type. */
  ghost predicate OpensSlot(offered: seq<Event>, i: nat)
    requires i < |offered|
  {
    forall j :: 0 <= j < i ==> !SameKind(offered[j], offered[i])
  }

  /** `ev` is the newest version of the event offered at `i`: itself when durable, else the last of its type. */
  ghost predicate IsNewest(offered: seq<Event>, i: nat, ev: Event)
    requires i < |offered|
  {
    if offered[i].Durable? then ev == offered[i]
    else exists j :: i <= j < |offered| && offered[j] == ev && SameKind(ev, offered[i]) &&
           forall k :: j < k < |offered| ==> !SameKind(offered[k], ev)
  }

  /**
    The buffer holds, in the order in which they were first offered, the newest versions of the events at the
    positions `at`; these are all that opened a slot, up to the bound.
  */
  ghost predicate Buffers(offered: seq<Event>, at: seq<nat>, buffered: seq<Event>) {
    && |at| == |buffered| <= MAX_REPLAY_BUFFERED_EVENTS
    && (forall k, l :: 0 <= k < l < |at| ==> at[k] < at[l])
    && (forall k :: 0 <= k < |at| ==> at[k] < |offered| && OpensSlot(offered, at[k]))
    && (forall k :: 0 <= k < |at| ==> IsNewest(offered, at[k], buffered[k]))
    && (forall i :: 0 <= i < |offered| && OpensSlot(offered, i) ==>
          i in at || (|at| == MAX_REPLAY_BUFFERED_EVENTS && forall k :: 0 <= k < |at| ==> at[k] < i))
  }

  function OfferAll(s: Subscription, events: seq<Event>): Subscription {
    if events == [] then s else Offer(OfferAll(s, events[..|events| - 1]), events[|events| - 1])
  }

  lemma SlotStays(offered: seq<Event>, ev: Event, i: nat)
    requires i < |offered|
    ensures OpensSlot(offered + [ev], i) <==> OpensSlot(offered, i)
  {
    assert forall j :: 0 <= j <= i ==> (offered + [ev])[j] == offered[j];
  }

  /** A later event replaces the newest version exactly when it is an ephemeral of the same type. */
  lemma NewestStays(offered: seq<Event>, ev: Event, i: nat, newest: Event)
    requires i < |offered| && IsNewest(offered, i, newest)
    ensures IsNewest(offered + [ev], i, if SameKind(ev, offered[i]) then ev else newest)
  {
    var longer := offered + [ev];
    assert longer[i] == offered[i];
    if offered[i].Ephemeral? {
      if SameKind(ev, offered[i]) {
        assert longer[|offered|] == ev;
      } else {
        var j :| i <= j < |offered| && offered[j] == newest && SameKind(newest, offered[i]) &&
                 forall k :: j < k < |offered| ==> !SameKind(offered[k], newest);
        assert longer[j] == newest;
      }
    }
  }

  /** The buffer's entries keep the type of the event whose slot they hold. */
  lemma NewestKind(offered: seq<Event>, i: nat, newest: Event)
    requires i < |offered| && IsNewest(offered, i, newest)
    ensures newest.Durable? <==> offered[i].Durable?
    ensures newest.Ephemeral? ==> SameKind(newest, offered[i])
  {
  }

  /** An event whose type already has an entry replaces that entry and nothing else. */
  lemma BuffersReplace(offered: seq<Event>, at: seq<nat>, buffered: seq<Event>, ev: Event, slot: nat)
    requires Buffers(offered, at, buffered) && slot < |buffered| && SameKind(buffered[slot], ev)
    requires forall k :: 0 <= k < |buffered| && k != slot ==> !SameKind(buffered[k], ev)
    ensures Buffers(offered + [ev], at, buffered[slot := ev])
  {
    var longer, after := offered + [ev], buffered[slot := ev];
    NewestKind(offered, at[slot], buffered[slot]);
    assert SameKind(longer[at[slot]], longer[|offered|]) && !OpensSlot(longer, |offered|);
    forall k | 0 <= k < |at|
      ensures at[k] < |longer| && OpensSlot(longer, at[k]) && IsNewest(longer, at[k], after[k])
    {
      SlotStays(offered, ev, at[k]);
      NewestStays(offered, ev, at[k], buffered[k]);
      NewestKind(offered, at[k], buffered[k]);
    }
    forall i | 0 <= i < |longer| && OpensSlot(longer, i)
      ensures i in at || (|at| == MAX_REPLAY_BUFFERED_EVENTS && forall k :: 0 <= k < |at| ==> at[k] < i)
    {
      if i < |offered| {
        SlotStays(offered, ev, i);
      }
    }
  }

  /** An event of a new type, or a durable one, takes a new entry while there is room. */
  lemma BuffersAppend(offered: seq<Event>, at: seq<nat>, buffered: seq<Event>, ev: Event)
    requires Buffers(offered, at, buffered) && |buffered| < MAX_REPLAY_BUFFERED_EVENTS
    requires forall k :: 0 <= k < |buffered| ==> !SameKind(buffered[k], ev)
    ensures Buffers(offered + [ev], at + [|offered|], buffered + [ev])
  {
    var longer, at', after := offered + [ev], at + [|offered|], buffered + [ev];
    NothingAlike(offered, at, buffered, ev);
    forall k | 0 <= k < |at'|
      ensures at'[k] < |longer| && OpensSlot(longer, at'[k]) && IsNewest(longer, at'[k], after[k])
    {
      if k < |at| {
        SlotStays(offered, ev, at[k]);
        NewestStays(offered, ev, at[k], buffered[k]);
        NewestKind(offered, at[k], buffered[k]);
      } else {
        assert longer[|offered|] == ev;
      }
    }
    forall i | 0 <= i < |longer| && OpensSlot(longer, i)
      ensures i in at'
    {
      if i < |offered| {
        SlotStays(offered, ev, i);
        assert i in at;
      } else {
        assert at'[|at|] == i;
      }
    }
  }

  /** While there is room, a type without an entry was never offered. */
  lemma {:induction false} NothingAlike(offered: seq<Event>, at: seq<nat>, buffered: seq<Event>, ev: Event)
    requires Buffers(offered, at, buffered) && |buffered| < MAX_REPLAY_BUFFERED_EVENTS
    requires forall k :: 0 <= k < |buffered| ==> !SameKind(buffered[k], ev)
    ensures forall i :: 0 <= i < |offered| ==> !SameKind(offered[i], ev)
  {
    forall i | 0 <= i < |offered|
      ensures !SameKind(offered[i], ev)
    {
      if SameKind(offered[i], ev) {
        var first := FirstAlike(offered, i);
        assert first in at;
        var k :| 0 <= k < |at| && at[k] == first;
        NewestKind(offered, first, buffered[k]);
      }
    }
  }

  lemma {:induction false} FirstAlike(offered: seq<Event>, i: nat) returns (first: nat)
    requires i < |offered| && offered[i].Ephemeral?
    ensures first <= i && SameKind(offered[first], offered[i]) && OpensSlot(offered, first)
    decreases i
  {
    if OpensSlot(offered, i) {
      first := i;
    } else {
      var j :| 0 <= j < i && SameKind(offered[j], offered[i]);
      first := FirstAlike(offered, j);
    }
  }

  /** With a full buffer an event that has no entry is dropped; its slot comes after all that are held. */
  lemma BuffersDrop(offered: seq<Event>, at: seq<nat>, buffered: seq<Event>, ev: Event)
    requires Buffers(offered, at, buffered) && |buffered| == MAX_REPLAY_BUFFERED_EVENTS
    requires forall k :: 0 <= k < |buffered| ==> !SameKind(buffered[k], ev)
    ensures Buffers(offered + [ev], at, buffered)
  {
    var longer := offered + [ev];
    forall k | 0 <= k < |at|
      ensures at[k] < |longer| && OpensSlot(longer, at[k]) && IsNewest(longer, at[k], buffered[k])
    {
      SlotStays(offered, ev, at[k]);
      NewestStays(offered, ev, at[k], buffered[k]);
      NewestKind(offered, at[k], buffered[k]);
    }
    forall i | 0 <= i < |longer| && OpensSlot(longer, i)
      ensures i in at || forall k :: 0 <= k < |at| ==> at[k] < i
    {
      if i < |offered| {
        SlotStays(offered, ev, i);
      }
    }
  }

  /**
    Over any sequence of offers, a subscription that began to buffer with nothing holds each durable event and, where
    the first ephemeral of its type stood, the last one offered of that type; past the bound new ones are dropped.
  */
  lemma {:induction false} BufferHoldsNewest(s: Subscription, offered: seq<Event>) returns (at: seq<nat>)
    requires WellFormed(s) && s.replaying && s.buffered == []
    ensures WellFormed(OfferAll(s, offered)) && OfferAll(s, offered).replaying
    ensures Buffers(offered, at, OfferAll(s, offered).buffered)
    decreases |offered|
  {
    if offered == [] {
      at := [];
    } else {
      var front, ev := offered[..|offered| - 1], offered[|offered| - 1];
      at := BufferHoldsNewest(s, front);
      assert offered == front + [ev];
      var was := OfferAll(s, front);
      OfferKeepsWellFormed(was, ev);
      AlikeIsIndexed(was, ev);
      hide Buffers, WellFormed, OfferAll;
      if Coalesces(was, ev) {
        BuffersReplace(front, at, was.buffered, ev, was.bufferedEphemerals[ev.kind]);
      } else if |was.buffered| < MAX_REPLAY_BUFFERED_EVENTS {
        BuffersAppend(front, at, was.buffered, ev);
        at := at + [|front|];
      } else {
        BuffersDrop(front, at, was.buffered, ev);
      }
    }
  }

  /** The index names the one entry of an ephemeral's type. */
  lemma AlikeIsIndexed(s: Subscription, ev: Event)
    requires WellFormed(s)
    ensures |s.buffered| <= MAX_REPLAY_BUFFERED_EVENTS
    ensures Coalesces(s, ev) ==>
              var slot := s.bufferedEphemerals[ev.kind];
              && slot < |s.buffered| && SameKind(s.buffered[slot], ev)
              && forall k :: 0 <= k < |s.buffered| && k != slot ==> !SameKind(s.buffered[k], ev)
    ensures !Coalesces(s, ev) ==> forall k :: 0 <= k < |s.buffered| ==> !SameKind(s.buffered[k], ev)
  {
  }

  // ---- Sequence numbers in event lists ----

  /** The durable sequence numbers in a list of events. */
  function Seqs(events: seq<Event>): seq<nat> {
    if events == [] then []
    else (if events[0].Durable? then [events[0].seqNo] else []) + Seqs(events[1..])
  }

  lemma {:induction false} SeqsConcat(a: seq<Event>, b: seq<Event>)
    ensures Seqs(a + b) == Seqs(a) + Seqs(b)
  {
    if a == [] {
      assert a + b == b;
    } else {
      assert (a + b)[1..] == a[1..] + b;
      SeqsConcat(a[1..], b);
      AppendAssociates(if a[0].Durable? then [a[0].seqNo] else [], Seqs(a[1..]), Seqs(b));
    }
  }

  lemma AppendAssociates(a: seq<nat>, b: seq<nat>, c: seq<nat>)
    ensures a + (b + c) == (a + b) + c
  {
  }

  lemma SeqsSnoc(a: seq<Event>, ev: Event)
    ensures Seqs(a + [ev]) == Seqs(a) + (if ev.Durable? then [ev.seqNo] else [])
  {
    SeqsConcat(a, [ev]);
    assert Seqs([ev]) == if ev.Durable? then [ev.seqNo] else [];
  }

  lemma SeqsReplaceEphemeral(a: seq<Event>, i: nat, ev: Event)
    requires i < |a| && a[i].Ephemeral? && ev.Ephemeral?
    ensures Seqs(a[i := ev]) == Seqs(a)
  {
    assert a[i := ev] == a[..i] + [ev] + a[i + 1..];
    assert a == a[..i] + [a[i]] + a[i + 1..];
    SeqsConcat(a[..i] + [ev], a[i + 1..]);
    SeqsConcat(a[..i] + [a[i]], a[i + 1..]);
    SeqsSnoc(a[..i], ev);
    SeqsSnoc(a[..i], a[i]);
  }

  /** Buffering an ephemeral leaves the durable content alone; a durable event goes to the back. */
  lemma OfferSeqs(s: Subscription, ev: Event)
    requires WellFormed(s)
    ensures Seqs(Offer(s, ev).buffered) ==
            Seqs(s.buffered) + (if ev.Durable? && Judge(s, ev) == Keep then [ev.seqNo] else [])
  {
    if Judge(s, ev) == Keep {
      if Coalesces(s, ev) {
        SeqsReplaceEphemeral(s.buffered, s.bufferedEphemerals[ev.kind], ev);
      } else {
        SeqsSnoc(s.buffered, ev);
      }
    }
  }

  // ---- In-order processing that drops everything at or below a mark ----

  /** The mark after processing `q`: an element above the mark is written and becomes the mark. */
  function Advance(q: seq<nat>, mark: nat): nat {
    if q == [] then mark else Advance(q[1..], if q[0] > mark then q[0] else mark)
  }

  /** Processing `q` from `mark` writes no element while an earlier, unexcused one is still owed. */
  ghost predicate Gapless(q: seq<nat>, mark: nat, excused: set<nat>) {
    q == [] ||
    (if q[0] > mark then
       (forall s :: mark < s < q[0] ==> s in excused) && Gapless(q[1..], q[0], excused)
     else Gapless(q[1..], mark, excused))
  }

  lemma {:induction false} ConcatLaws(a: seq<nat>, b: seq<nat>, mark: nat, excused: set<nat>)
    ensures Advance(a + b, mark) == Advance(b, Advance(a, mark))
    ensures Gapless(a + b, mark, excused) <==>
            Gapless(a, mark, excused) && Gapless(b, Advance(a, mark), excused)
  {
    if a == [] {
      assert a + b == b;
    } else {
      assert (a + b)[1..] == a[1..] + b;
      ConcatLaws(a[1..], b, if a[0] > mark then a[0] else mark, excused);
    }
  }

  lemma SnocLaws(a: seq<nat>, e: nat, mark: nat, excused: set<nat>)
    ensures Advance(a + [e], mark) == if e > Advance(a, mark) then e else Advance(a, mark)
    ensures Gapless(a + [e], mark, excused) <==>
            Gapless(a, mark, excused) && forall s :: Advance(a, mark) < s < e ==> s in excused
  {
    ConcatLaws(a, [e], mark, excused);
    assert [e][1..] == [];
  }

  /** Raising the mark keeps a queue gapless: it can only drop more from the front. */
  lemma {:induction false} RaiseMark(q: seq<nat>, mark: nat, higher: nat, excused: set<nat>)
    requires mark <= higher && Gapless(q, mark, excused)
    ensures Gapless(q, higher, excused)
    ensures Advance(q, higher) == if higher > Advance(q, mark) then higher else Advance(q, mark)
  {
    if q != [] {
      RaiseMark(q[1..], if q[0] > mark then q[0] else mark, if q[0] > higher then q[0] else higher, excused);
      AdvanceIsUpward(q[1..], q[0]);
    }
  }

  lemma {:induction false} AdvanceIsUpward(q: seq<nat>, mark: nat)
    ensures Advance(q, mark) >= mark
  {
    if q != [] {
      AdvanceIsUpward(q[1..], if q[0] > mark then q[0] else mark);
    }
  }

  lemma {:induction false} ExcuseMore(q: seq<nat>, mark: nat, excused: set<nat>, more: set<nat>)
    requires excused <= more && Gapless(q, mark, excused)
    ensures Gapless(q, mark, more)
  {
    if q != [] {
      ExcuseMore(q[1..], if q[0] > mark then q[0] else mark, excused, more);
    }
  }

  // ---- What a drain writes ----

  /** The events a drain writes, starting with `lastSeq == mark`. */
  function Kept(events: seq<Event>, mark: nat): seq<Event> {
    if events == [] then []
    else if events[0].Durable? && events[0].seqNo <= mark then Kept(events[1..], mark)
    else [events[0]] + Kept(events[1..], if events[0].Durable? then events[0].seqNo else mark)
  }

  ghost predicate Rising(q: seq<nat>) {
    forall i, j :: 0 <= i < j < |q| ==> q[i] < q[j]
  }

  /** The number stands in the list before any higher one does, and for the first time. */
  ghost predicate InTime(q: seq<nat>, s: nat) {
    exists k :: 0 <= k < |q| && q[k] == s && forall j :: 0 <= j < k ==> q[j] < s
  }

  lemma InTimeCons(n: nat, q: seq<nat>, s: nat)
    ensures InTime([n] + q, s) <==> s == n || (n < s && InTime(q, s))
  {
    var all := [n] + q;
    if InTime(all, s) {
      var k :| 0 <= k < |all| && all[k] == s && forall j :: 0 <= j < k ==> all[j] < s;
      if k > 0 {
        assert all[0] < s && q[k - 1] == s && forall j :: 0 <= j < k - 1 ==> q[j] == all[j + 1];
      }
    }
    if s == n {
      assert all[0] == s;
    } else if n < s && InTime(q, s) {
      var k :| 0 <= k < |q| && q[k] == s && forall j :: 0 <= j < k ==> q[j] < s;
      assert all[k + 1] == s && forall j :: 0 <= j < k + 1 ==> all[j] < s;
    }
  }

  /** In a rising list every member is in time. */
  lemma RisingInTime(q: seq<nat>, s: nat)
    requires Rising(q)
    ensures s in q <==> InTime(q, s)
  {
  }

  /** The last number, or `mark` when there is none. */
  function LastOr(mark: nat, q: seq<nat>): nat {
    if q == [] then mark else q[|q| - 1]
  }

  /** The durable part of a list after its first event. */
  lemma SeqsTail(events: seq<Event>)
    requires events != []
    ensures Seqs(events) == (if events[0].Durable? then [events[0].seqNo] else []) + Seqs(events[1..])
    ensures events[0].Durable? ==> Seqs(events)[1..] == Seqs(events[1..])
    ensures events[0].Ephemeral? ==> Seqs(events) == Seqs(events[1..])
  {
  }

  /**
    What a drain of the numbers `q` from `mark` writes: a rising list, exactly the numbers above the mark that
    stand in `q` before any higher one; it ends at the highest number seen.
  */
  ghost predicate Drains(q: seq<nat>, mark: nat, written: seq<nat>) {
    && Rising(written)
    && (forall s :: s in written <==> mark < s && InTime(q, s))
    && LastOr(mark, written) == Advance(q, mark)
    && (forall s :: s in q ==> s <= Advance(q, mark))
  }

  lemma DrainsOne(n: nat, q: seq<nat>, mark: nat, written: seq<nat>)
    requires Drains(q, if n > mark then n else mark, written)
    ensures Drains([n] + q, mark, if n > mark then [n] + written else written)
  {
    var next, all, written' := if n > mark then n else mark, [n] + q, if n > mark then [n] + written else written;
    assert all[1..] == q;
    AdvanceIsUpward(q, next);
    assert Advance(all, mark) == Advance(q, next);
    hide InTime, Advance;
    forall s
      ensures s in written' <==> mark < s && InTime(all, s)
    {
      InTimeCons(n, q, s);
      assert s in written' <==> s in written || (n > mark && s == n);
    }
    forall s | s in all
      ensures s <= Advance(all, mark)
    {
      assert s == n || s in q;
    }
    if n > mark {
      RisingCons(n, written);
    }
  }

  lemma RisingCons(n: nat, q: seq<nat>)
    requires Rising(q) && forall s :: s in q ==> n < s
    ensures Rising([n] + q)
  {
    assert forall i :: 0 <= i < |q| ==> q[i] in q;
  }

  /** A drain of buffered events writes their durable part as `Drains` says, whatever ephemerals lie between. */
  lemma {:induction false} DrainLaw(events: seq<Event>, mark: nat)
    ensures Drains(Seqs(events), mark, Seqs(Kept(events, mark)))
  {
    if events != [] {
      var rest := events[1..];
      var next := if events[0].Durable? && events[0].seqNo > mark then events[0].seqNo else mark;
      SeqsTail(events);
      DrainLaw(rest, next);
      SeqsTail([events[0]] + Kept(rest, next));
      assert ([events[0]] + Kept(rest, next))[1..] == Kept(rest, next);
      hide Drains;
      if events[0].Durable? {
        DrainsOne(events[0].seqNo, Seqs(rest), mark, Seqs(Kept(rest, next)));
      }
    }
  }

  /** A drain writes an event unless it is durable and stale: at or below the mark, or not above one before it. */
  ghost predicate IsWritten(events: seq<Event>, mark: nat, i: nat)
    requires i < |events|
  {
    events[i].Durable? ==>
      mark < events[i].seqNo && forall j :: 0 <= j < i && events[j].Durable? ==> events[j].seqNo < events[i].seqNo
  }

  /** What a drain writes: the events at the positions `at`, in order, and these are exactly the written ones. */
  ghost predicate Picks(events: seq<Event>, mark: nat, at: seq<nat>, written: seq<Event>) {
    && |at| == |written|
    && (forall k, l :: 0 <= k < l < |at| ==> at[k] < at[l])
    && (forall k :: 0 <= k < |at| ==> at[k] < |events| && written[k] == events[at[k]])
    && (forall i :: 0 <= i < |events| ==> (i in at <==> IsWritten(events, mark, i)))
  }

  lemma WrittenShift(events: seq<Event>, mark: nat, i: nat)
    requires 0 < i < |events|
    ensures var next := if events[0].Durable? && events[0].seqNo > mark then events[0].seqNo else mark;
            IsWritten(events, mark, i) <==> IsWritten(events[1..], next, i - 1)
  {
    assert forall j :: 0 < j < |events| ==> events[j] == events[1..][j - 1];
  }

  /** Each position, one further on. */
  function Later(at: seq<nat>): (later: seq<nat>)
    ensures |later| == |at| && forall k :: 0 <= k < |at| ==> later[k] == at[k] + 1
  {
    seq(|at|, k requires 0 <= k < |at| => at[k] + 1)
  }

  lemma LaterMember(at: seq<nat>, i: nat)
    ensures i in Later(at) <==> i > 0 && i - 1 in at
  {
    if i > 0 && i - 1 in at {
      var k :| 0 <= k < |at| && at[k] == i - 1;
      assert Later(at)[k] == i;
    }
  }

  lemma PickLater(events: seq<Event>, mark: nat, next: nat, at: seq<nat>, written: seq<Event>)
    requires events != [] && Picks(events[1..], next, at, written) && !IsWritten(events, mark, 0)
    requires next == if events[0].Durable? && events[0].seqNo > mark then events[0].seqNo else mark
    ensures Picks(events, mark, Later(at), written)
  {
    hide IsWritten, Later;
    forall i | 0 <= i < |events|
      ensures i in Later(at) <==> IsWritten(events, mark, i)
    {
      LaterMember(at, i);
      if i > 0 {
        WrittenShift(events, mark, i);
      }
    }
  }

  lemma PickFirst(events: seq<Event>, mark: nat, next: nat, at: seq<nat>, written: seq<Event>)
    requires events != [] && Picks(events[1..], next, at, written) && IsWritten(events, mark, 0)
    requires next == if events[0].Durable? && events[0].seqNo > mark then events[0].seqNo else mark
    ensures Picks(events, mark, [0] + Later(at), [events[0]] + written)
  {
    hide IsWritten, Later;
    var all := [0] + Later(at);
    forall i | 0 <= i < |events|
      ensures i in all <==> IsWritten(events, mark, i)
    {
      LaterMember(at, i);
      assert i in all <==> i == 0 || i in Later(at);
      if i > 0 {
        WrittenShift(events, mark, i);
      }
    }
  }

  /** Every buffered ephemeral is written, and each durable event that is not stale, in the buffer's order. */
  lemma {:induction false} DrainPicks(events: seq<Event>, mark: nat) returns (at: seq<nat>)
    ensures Picks(events, mark, at, Kept(events, mark))
  {
    if events == [] {
      at := [];
    } else {
      hide Picks;
      var next := if events[0].Durable? && events[0].seqNo > mark then events[0].seqNo else mark;
      var rest := DrainPicks(events[1..], next);
      if IsWritten(events, mark, 0) {
        PickFirst(events, mark, next, rest, Kept(events[1..], next));
        at := [0] + Later(rest);
      } else {
        PickLater(events, mark, next, rest, Kept(events[1..], next));
        at := Later(rest);
      }
    }
  }

  /** With the buffer in publication order nothing above the mark is lost. */
  lemma DrainInOrder(events: seq<Event>, mark: nat, i: nat)
    requires Rising(Seqs(events)) && i < |events| && events[i].Durable? && mark < events[i].seqNo
    ensures events[i].seqNo in Seqs(Kept(events, mark))
  {
    DrainLaw(events, mark);
    InSeqs(events, i);
    RisingInTime(Seqs(events), events[i].seqNo);
  }

  /**
    A durable event whose type the connection filters is marked sent at once, also during replay.
    With the buffer in publication order, the coming drain still writes everything it owed exactly
    when no buffered event lies at or below the filtered one and above the old mark.
  */
  lemma FilteredDuringReplay(events: seq<Event>, mark: nat, n: nat)
    requires Rising(Seqs(events))
    ensures var after := MarkSent(Subscription(mark, true, events, map[]), Durable(n)).lastSeq;
            Kept(events, after) == Kept(events, mark) <==> NoneBetween(events, mark, n)
  {
    RaisedMark(events, mark, if n > mark then n else mark);
  }

  /** No durable event lies above `mark` and at or below `n`. */
  ghost predicate NoneBetween(events: seq<Event>, mark: nat, n: nat) {
    forall i :: 0 <= i < |events| && events[i].Durable? ==> !(mark < events[i].seqNo <= n)
  }

  lemma {:induction false} RaisedMark(events: seq<Event>, mark: nat, higher: nat)
    requires Rising(Seqs(events)) && mark <= higher
    ensures Kept(events, higher) == Kept(events, mark) <==> NoneBetween(events, mark, higher)
  {
    if events != [] {
      var first, rest := events[0], events[1..];
      RestRises(events);
      RaisedMark(rest, mark, higher);
      assert NoneBetween(events, mark, higher) <==>
             !(first.Durable? && mark < first.seqNo <= higher) && NoneBetween(rest, mark, higher) by {
        assert forall i :: 0 < i < |events| ==> events[i] == rest[i - 1];
      }
      hide NoneBetween, Rising, Seqs;
      if first.Ephemeral? {
        assert Kept(events, higher)[1..] == Kept(rest, higher) && Kept(events, mark)[1..] == Kept(rest, mark);
      } else if first.seqNo > higher {
        AllAbove(events, higher);
      } else if first.seqNo > mark {
        KeptHeadAbove(rest, higher);
        assert Kept(events, mark)[0] == first;
      }
    }
  }

  lemma RestRises(events: seq<Event>)
    requires events != [] && Rising(Seqs(events))
    ensures Rising(Seqs(events[1..]))
  {
    var all := Seqs(events);
    if events[0].Durable? {
      assert all[1..] == Seqs(events[1..]);
    } else {
      assert all == Seqs(events[1..]);
    }
  }

  lemma AllAbove(events: seq<Event>, low: nat)
    requires events != [] && Rising(Seqs(events)) && events[0].Durable? && events[0].seqNo > low
    ensures forall mark: nat :: NoneBetween(events[1..], mark, low)
  {
    assert Seqs(events)[1..] == Seqs(events[1..]);
    SeqsAbove(events[1..], events[0].seqNo, Seqs(events));
  }

  /** An event numbered below the filtered one is lost when it waits in the buffer. */
  lemma FilteredDuringReplayLoses()
    ensures var s := Offer(Joined(0), Durable(1));
            && Kept(s.buffered, s.lastSeq) == [Durable(1)]
            && Kept(s.buffered, MarkSent(s, Durable(2)).lastSeq) == []
  {
    assert Offer(Joined(0), Durable(1)).buffered == [Durable(1)];
  }

  lemma {:induction false} SeqsAbove(rest: seq<Event>, low: nat, all: seq<nat>)
    requires |all| > 0 && all[0] == low && Rising(all) && all[1..] == Seqs(rest)
    ensures forall i :: 0 <= i < |rest| && rest[i].Durable? ==> rest[i].seqNo > low
  {
    forall i | 0 <= i < |rest| && rest[i].Durable?
      ensures rest[i].seqNo > low
    {
      InSeqs(rest, i);
      var k :| 0 <= k < |Seqs(rest)| && Seqs(rest)[k] == rest[i].seqNo;
      assert all[k + 1] == all[1..][k];
    }
  }

  lemma {:induction false} InSeqs(events: seq<Event>, i: nat)
    requires i < |events| && events[i].Durable?
    ensures events[i].seqNo in Seqs(events)
  {
    if i > 0 {
      InSeqs(events[1..], i - 1);
    }
  }

  lemma {:induction false} KeptHeadAbove(events: seq<Event>, mark: nat)
    ensures forall i :: 0 <= i < |Kept(events, mark)| && Kept(events, mark)[i].Durable? ==>
              Kept(events, mark)[i].seqNo > mark
  {
    if events != [] {
      if events[0].Durable? && events[0].seqNo > mark {
        KeptHeadAbove(events[1..], events[0].seqNo);
      } else {
        KeptHeadAbove(events[1..], mark);
      }
    }
  }

  // ---- The connection object ----

  /** How `sendLiveEvent` ends: `Failed` is a transport error, `Overflowed` a full replay buffer. */
  datatype SendOutcome = Done | Overflowed | Failed

  /**
    `hidden` holds the durable events whose type this connection filters; `room` is how many more
    frames the transport accepts before every write fails.
  */
  class ClientConnection {
    const hidden: set<nat>
    var subscriptions: map<string, Subscription>
    var wire: seq<(string, Event)>
    var room: nat

    ghost predicate Valid()
      reads this
    {
      forall s :: s in subscriptions ==> WellFormed(subscriptions[s])
    }

    constructor (cursors: map<string, nat>, hidden: set<nat>, room: nat)
      ensures Valid() && wire == [] && this.room == room && this.hidden == hidden
      ensures subscriptions == map s | s in cursors :: Joined(cursors[s])
    {
      this.hidden := hidden;
      this.room := room;
      wire := [];
      subscriptions := map s | s in cursors :: Joined(cursors[s]);
    }

    predicate Filtered(ev: Event) {
      ev.Durable? && ev.seqNo in hidden
    }

    method WriteFrame(session: string, ev: Event) returns (ok: bool)
      modifies this`wire, this`room
      ensures ok == (old(room) > 0)
      ensures wire == old(wire) + (if ok then [(session, ev)] else [])
      ensures room == if ok then old(room) - 1 else old(room)
    {
      ok := room > 0;
      if ok {
        wire := wire + [(session, ev)];
        room := room - 1;
      }
    }

    method MarkEventSent(session: string, ev: Event)
      requires Valid()
      modifies this`subscriptions
      ensures Valid()
      ensures subscriptions == if session in old(subscriptions)
                               then old(subscriptions)[session := MarkSent(old(subscriptions)[session], ev)]
                               else old(subscriptions)
    {
      if ev.Durable? && session in subscriptions {
        var state := subscriptions[session];
        if ev.seqNo > state.lastSeq {
          subscriptions := subscriptions[session := state.(lastSeq := ev.seqNo)];
        }
      }
    }

    method WriteReplayEvent(session: string, ev: Event) returns (ok: bool)
      requires Valid()
      modifies this
      ensures Valid()
      ensures ok == (Filtered(ev) || old(room) > 0)
      ensures wire == old(wire) + (if ok && !Filtered(ev) then [(session, ev)] else [])
      ensures subscriptions == if ok && session in old(subscriptions)
                               then old(subscriptions)[session := MarkSent(old(subscriptions)[session], ev)]
                               else old(subscriptions)
    {
      ok := true;
      if !Filtered(ev) {
        ok := WriteFrame(session, ev);
      }
      if ok {
        MarkEventSent(session, ev);
      }
    }

    method SendLiveEvent(session: string, ev: Event) returns (outcome: SendOutcome)
      requires Valid()
      modifies this
      ensures Valid()
      ensures session !in old(subscriptions) ==>
                subscriptions == old(subscriptions) && wire == old(wire) && outcome == Done
      ensures session in old(subscriptions) ==>
                var s := old(subscriptions)[session];
                var delivered := !Filtered(ev) && Judge(s, ev) == Deliver && old(room) > 0;
                && wire == old(wire) + (if delivered then [(session, ev)] else [])
                && subscriptions ==
                   old(subscriptions)[session := if Filtered(ev) || delivered then MarkSent(s, ev) else Offer(s, ev)]
                && outcome == if Filtered(ev) || Judge(s, ev) in {Keep, Stale} || delivered then Done
                              else if Judge(s, ev) == Overflow then Overflowed else Failed
    {
      outcome := Done;
      if Filtered(ev) {
        MarkEventSent(session, ev);
        return;
      }
      if session !in subscriptions {
        return;
      }
      var state := subscriptions[session];
      OfferKeepsWellFormed(state, ev);
      ghost var offered := Offer(state, ev);
      assert WellFormed(state) && WellFormed(offered);
      if state.replaying {
        if ev.Ephemeral? && ev.kind in state.bufferedEphemerals {
          state := state.(buffered := state.buffered[state.bufferedEphemerals[ev.kind] := ev]);
        } else if |state.buffered| >= MAX_REPLAY_BUFFERED_EVENTS {
          outcome := Overflowed;
          return;
        } else {
          state := state.(buffered := state.buffered + [ev]);
          if ev.Ephemeral? {
            state := state.(bufferedEphemerals := state.bufferedEphemerals[ev.kind := |state.buffered| - 1]);
          }
        }
        assert state == offered;
        hide WellFormed;
        subscriptions := subscriptions[session := state];
        return;
      }
      hide WellFormed;
      if ev.Durable? && ev.seqNo <= state.lastSeq {
        return;
      }
      var ok := WriteFrame(session, ev);
      if ok {
        MarkEventSent(session, ev);
      } else {
        outcome := Failed;
      }
    }

    /** Writes one buffered event unless it is stale or its Session is not subscribed. */
    method WriteBufferedEvent(session: string, ev: Event) returns (ok: bool)
      requires Valid()
      modifies this
      ensures Valid()
      ensures session !in old(subscriptions) ==>
                ok && wire == old(wire) && room == old(room) && subscriptions == old(subscriptions)
      ensures session in old(subscriptions) ==>
              var stale := ev.Durable? && ev.seqNo <= old(subscriptions)[session].lastSeq;
              && ok == (stale || old(room) > 0)
              && wire == old(wire) + (if ok && !stale then [(session, ev)] else [])
              && room == (if ok && !stale then old(room) - 1 else old(room))
              && var s := old(subscriptions)[session];
                 subscriptions == old(subscriptions)[session := if ok then MarkSent(s, ev) else s]
    {
      ok := true;
      if session in subscriptions && !(ev.Durable? && ev.seqNo <= subscriptions[session].lastSeq) {
        ok := WriteFrame(session, ev);
        if ok {
          MarkEventSent(session, ev);
        }
      }
    }

    /**
      The whole drain when nothing else touches the connection: it writes what the buffer owes, in
      order, as far as the transport accepts it, and leaves replay mode exactly when all was written.
    */
    method FinishReplay(session: string) returns (ok: bool)
      requires Valid()
      modifies this
      ensures Valid()
      ensures session !in old(subscriptions) ==> ok && wire == old(wire) && subscriptions == old(subscriptions)
      ensures session in old(subscriptions) ==>
              var s := old(subscriptions)[session];
              var owed := Kept(s.buffered, s.lastSeq);
              && ok == (|owed| <= old(room))
              && wire == old(wire) + Tagged(session, Prefix(owed, old(room)))
              && (ok ==>
                    var live := Subscription(Advance(Seqs(s.buffered), s.lastSeq), false, [], map[]);
                    subscriptions == old(subscriptions)[session := live])
    {
      hide Kept, Seqs, Tagged, Advance;
      if session !in subscriptions {
        return true;
      }
      ghost var s0 := subscriptions[session];
      ok := true;
      ghost var drained := false;
      while subscriptions[session].buffered != []
        invariant Valid() && session in subscriptions
        invariant !drained ==> subscriptions == old(subscriptions) && wire == old(wire) && room == old(room)
        invariant drained ==> subscriptions == old(subscriptions)[session := Drained(s0)]
        invariant drained ==> |Kept(s0.buffered, s0.lastSeq)| <= old(room)
        invariant drained ==> wire == old(wire) + Tagged(session, Prefix(Kept(s0.buffered, s0.lastSeq), old(room)))
        decreases |subscriptions[session].buffered|
      {
        var state := subscriptions[session];
        subscriptions := subscriptions[session := state.(buffered := [], bufferedEphemerals := map[])];
        ok := WriteAll(session, state.buffered);
        drained := true;
        if !ok {
          return;
        }
      }
      EmptyDrain(s0, session, wire);
      var state := subscriptions[session];
      state := state.(buffered := [], bufferedEphemerals := map[], replaying := false);
      subscriptions := subscriptions[session := state];
    }

    /** The inner loop of the drain. */
    method WriteAll(session: string, events: seq<Event>) returns (ok: bool)
      requires Valid() && session in subscriptions
      modifies this
      ensures Valid() && session in subscriptions
      ensures var s := old(subscriptions)[session];
              var owed := Kept(events, s.lastSeq);
              && ok == (|owed| <= old(room))
              && wire == old(wire) + Tagged(session, Prefix(owed, old(room)))
              && (ok ==>
                    subscriptions == old(subscriptions)[session := s.(lastSeq := Advance(Seqs(events), s.lastSeq))])
    {
      hide Kept, Seqs, Tagged, Advance, DrainedSoFar;
      ghost var s0 := subscriptions[session];
      ghost var written: seq<Event> := [];
      ok := true;
      DrainStart(events, s0.lastSeq, session);
      for i := 0 to |events|
        invariant Valid() && session in subscriptions
        invariant subscriptions == old(subscriptions)[session := s0.(lastSeq := subscriptions[session].lastSeq)]
        invariant DrainedSoFar(events, s0.lastSeq, i, written, subscriptions[session].lastSeq)
        invariant |written| <= old(room) && room == old(room) - |written|
        invariant wire == old(wire) + Tagged(session, written)
        invariant ok
      {
        ghost var mark := subscriptions[session].lastSeq;
        DrainStep(events, s0.lastSeq, i, written, mark);
        ok := WriteBufferedEvent(session, events[i]);
        if !ok {
          return;
        }
        if !IsStale(events[i], mark) {
          TaggedSnoc(session, written, events[i]);
          written := written + [events[i]];
        }
      }
      DrainEnd(events, s0.lastSeq, written, subscriptions[session].lastSeq);
    }
  }

  function Drained(s: Subscription): Subscription {
    Subscription(Advance(Seqs(s.buffered), s.lastSeq), s.replaying, [], map[])
  }

  /** The first `n` events, or all of them when there are fewer. */
  function Prefix(events: seq<Event>, n: nat): seq<Event> {
    if |events| <= n then events else events[..n]
  }

  /** After `i` events the drain has written `written` and stands at `mark`. */
  ghost predicate DrainedSoFar(events: seq<Event>, start: nat, i: nat, written: seq<Event>, mark: nat) {
    && i <= |events|
    && Kept(events, start) == written + Kept(events[i..], mark)
    && Advance(Seqs(events), start) == Advance(Seqs(events[i..]), mark)
  }

  predicate IsStale(ev: Event, mark: nat) {
    ev.Durable? && ev.seqNo <= mark
  }

  function MarkAfter(ev: Event, mark: nat): nat {
    if ev.Durable? && ev.seqNo > mark then ev.seqNo else mark
  }

  lemma AdvanceHead(n: nat, q: seq<nat>, mark: nat)
    ensures Advance([n] + q, mark) == Advance(q, if n > mark then n else mark)
  {
    assert ([n] + q)[1..] == q;
  }

  lemma Unroll(events: seq<Event>, mark: nat)
    requires events != []
    ensures Advance(Seqs(events), mark) == Advance(Seqs(events[1..]), MarkAfter(events[0], mark))
    ensures Kept(events, mark) ==
            (if IsStale(events[0], mark) then [] else [events[0]]) + Kept(events[1..], MarkAfter(events[0], mark))
  {
    var rest := Seqs(events[1..]);
    if events[0].Durable? {
      assert Seqs(events) == [events[0].seqNo] + rest;
      AdvanceHead(events[0].seqNo, rest, mark);
    } else {
      assert Seqs(events) == [] + rest == rest;
    }
    hide Seqs, Advance;
  }

  lemma DrainStep(events: seq<Event>, start: nat, i: nat, written: seq<Event>, mark: nat)
    requires DrainedSoFar(events, start, i, written, mark) && i < |events|
    ensures var written' := if IsStale(events[i], mark) then written else written + [events[i]];
            DrainedSoFar(events, start, i + 1, written', MarkAfter(events[i], mark))
    ensures !IsStale(events[i], mark) ==>
              |written| < |Kept(events, start)| && written == Kept(events, start)[..|written|]
  {
    Unroll(events[i..], mark);
    assert events[i..][1..] == events[i + 1..];
    var tail := Kept(events[i + 1..], MarkAfter(events[i], mark));
    if IsStale(events[i], mark) {
      assert [] + tail == tail;
    } else {
      assert written + ([events[i]] + tail) == (written + [events[i]]) + tail;
    }
  }

  lemma DrainStart(events: seq<Event>, start: nat, session: string)
    ensures DrainedSoFar(events, start, 0, [], start) && Tagged(session, []) == []
  {
    assert events[0..] == events && [] + Kept(events, start) == Kept(events, start);
  }

  lemma DrainEnd(events: seq<Event>, start: nat, written: seq<Event>, mark: nat)
    requires DrainedSoFar(events, start, |events|, written, mark)
    ensures written == Kept(events, start) && mark == Advance(Seqs(events), start)
  {
    assert events[|events|..] == [];
  }

  function Tagged(session: string, events: seq<Event>): seq<(string, Event)> {
    seq(|events|, i requires 0 <= i < |events| => (session, events[i]))
  }

  lemma TaggedSnoc(session: string, events: seq<Event>, ev: Event)
    ensures Tagged(session, events + [ev]) == Tagged(session, events) + [(session, ev)]
  {
  }

  lemma EmptyDrain(s: Subscription, session: string, wire: seq<(string, Event)>)
    ensures s.buffered == [] ==>
              Drained(s).lastSeq == s.lastSeq && Kept(s.buffered, s.lastSeq) == [] && wire + Tagged(session, []) == wire
  {
  }
}
