/**
  History pages: the Hub's check of a page before it is sent, the codec's and the client's checks of the
  response, and the walk that follows `next_before_seq` from the newest page.
*/
module HistoryPages {
  import opened Wrappers

  const MAX_LIMIT := 100

  /** `sound`: session, type and payload of the event are as they must be. */
  datatype Event = Event(seqNo: int, sound: bool)

  datatype Page = Page(events: seq<Event>, latest: int, next: Option<int>, complete: bool)

  datatype Request = Request(limit: int, before: Option<int>)

  function Seqs(events: seq<Event>): seq<int> {
    seq(|events|, i requires 0 <= i < |events| => events[i].seqNo)
  }

  /** The numbers from `first` to `last`. */
  function Range(first: int, last: int): seq<int> {
    seq(if last < first then 0 else last - first + 1, i => first + i)
  }

  // ---- The Hub's check ----

  /** The newest event the request may see. */
  function Eligible(page: Page, request: Request): int {
    if request.before.Some? && request.before.value - 1 < page.latest then request.before.value - 1 else page.latest
  }

  ghost predicate Ascending(events: seq<Event>) {
    forall i :: 0 < i < |events| ==> events[i - 1].seqNo < events[i].seqNo
  }

  ghost predicate Bounded(events: seq<Event>, page: Page, request: Request) {
    forall i :: 0 <= i < |events| ==>
      1 <= events[i].seqNo <= page.latest && events[i].sound &&
      (request.before.Some? ==> events[i].seqNo < request.before.value)
  }

  predicate GoodCursor(page: Page, request: Request) {
    page.next.Some? ==>
      page.next.value >= 1 && |page.events| == request.limit && page.events != [] &&
      page.next.value == page.events[0].seqNo
  }

  /** A complete page holds the last events up to the newest eligible one, and points on exactly when there are more. */
  ghost predicate Exhaustive(page: Page, request: Request) {
    var eligible := Eligible(page, request);
    var want := if eligible > request.limit then request.limit else eligible;
    want >= 0 && Seqs(page.events) == Range(eligible - want + 1, eligible) &&
    (eligible > request.limit <==> page.next.Some?)
  }

  ghost predicate HubAccepts(page: Page, request: Request) {
    && 1 <= request.limit <= MAX_LIMIT && |page.events| <= request.limit && page.latest >= 0
    && Bounded(page.events, page, request) && Ascending(page.events) && GoodCursor(page, request)
    && (page.complete ==> Exhaustive(page, request))
  }

  method ValidHistoryPage(page: Page, request: Request) returns (ok: bool)
    ensures ok <==> HubAccepts(page, request)
  {
    hide Bounded, Ascending, Exhaustive;
    if request.limit < 1 || request.limit > MAX_LIMIT || |page.events| > request.limit || page.latest < 0 {
      return false;
    }
    ok := ValidEvents(page, request);
    if !ok {
      return false;
    }
    if page.next.Some? {
      if page.next.value < 1 || |page.events| != request.limit || page.next.value != page.events[0].seqNo {
        return false;
      }
    }
    if page.complete {
      ok := ValidExtent(page, request);
    }
  }

  method ValidEvents(page: Page, request: Request) returns (ok: bool)
    ensures ok <==> Bounded(page.events, page, request) && Ascending(page.events)
  {
    for index := 0 to |page.events|
      invariant Bounded(page.events[..index], page, request) && Ascending(page.events[..index])
    {
      var event := page.events[index];
      assert page.events[..index + 1][..index] == page.events[..index];
      if event.seqNo < 1 || event.seqNo > page.latest || !event.sound ||
         (request.before.Some? && event.seqNo >= request.before.value) ||
         (index > 0 && page.events[index - 1].seqNo >= event.seqNo) {
        return false;
      }
    }
    assert page.events[..|page.events|] == page.events;
    return true;
  }

  method ValidExtent(page: Page, request: Request) returns (ok: bool)
    requires request.limit >= 1
    ensures ok <==> Exhaustive(page, request)
  {
    var eligible := page.latest;
    if request.before.Some? && request.before.value - 1 < eligible {
      eligible := request.before.value - 1;
    }
    var want := eligible;
    if want > request.limit {
      want := request.limit;
    }
    assert want >= 0 ==> |Range(eligible - want + 1, eligible)| == want;
    if |page.events| != want || (eligible > request.limit) != page.next.Some? {
      return false;
    }
    var first := eligible - want + 1;
    for index := 0 to |page.events|
      invariant forall i :: 0 <= i < index ==> page.events[i].seqNo == first + i
    {
      if page.events[index].seqNo != first + index {
        assert Seqs(page.events)[index] != Range(first, eligible)[index];
        return false;
      }
    }
    assert Seqs(page.events) == Range(first, eligible);
    return true;
  }

  // ---- The codec's and the client's checks ----

  ghost predicate CodecAccepts(page: Page) {
    && page.latest >= 0 && (forall i :: 0 <= i < |page.events| ==> page.events[i].seqNo <= page.latest)
    && Ascending(page.events)
    && (page.next.Some? ==> page.next.value > 0 && page.events != [] && page.next.value == page.events[0].seqNo)
  }

  method ValidResponse(page: Page) returns (ok: bool)
    ensures ok <==> CodecAccepts(page)
  {
    if page.latest < 0 {
      return false;
    }
    for index := 0 to |page.events|
      invariant forall i :: 0 <= i < index ==> page.events[i].seqNo <= page.latest
      invariant Ascending(page.events[..index])
    {
      assert page.events[..index + 1][..index] == page.events[..index];
      if page.events[index].seqNo > page.latest ||
         (index > 0 && page.events[index - 1].seqNo >= page.events[index].seqNo) {
        return false;
      }
    }
    assert page.events[..|page.events|] == page.events;
    if page.next.Some? {
      return page.next.value > 0 && |page.events| > 0 && page.next.value == page.events[0].seqNo;
    }
    return true;
  }

  ghost predicate ClientAccepts(page: Page, request: Request) {
    && page.latest >= 0 && (page.next.Some? ==> page.next.value >= 1)
    && (forall i :: 0 <= i < |page.events| ==>
          (if i == 0 then 0 else page.events[i - 1].seqNo) < page.events[i].seqNo <= page.latest)
    && (forall i :: 0 <= i < |page.events| && request.before.Some? ==> page.events[i].seqNo < request.before.value)
  }

  /** Every page the Hub accepts passes the codec's and the client's checks. */
  lemma AcceptedPagePasses(page: Page, request: Request)
    requires HubAccepts(page, request)
    ensures CodecAccepts(page) && ClientAccepts(page, request)
  {
    assert page.events != [] ==> page.events[0].seqNo >= 1;
  }

  // ---- Walking back through the pages ----

  /** Each request asks before the previous page's cursor, and the Hub accepts every page, gaps included. */
  ghost predicate AcceptedWalk(pages: seq<Page>, requests: seq<Request>) {
    && |pages| == |requests| && pages != [] && requests[0].before.None?
    && (forall k :: 0 <= k < |pages| ==> HubAccepts(pages[k], requests[k]))
    && (forall k :: 0 < k < |pages| ==> Continues(pages[k - 1], requests[k]))
  }

  predicate Continues(previous: Page, request: Request) {
    previous.next.Some? && request.before == previous.next
  }

  /** Such a walk in which every page is complete and the latest event never falls. */
  ghost predicate Walk(pages: seq<Page>, requests: seq<Request>) {
    && |pages| == |requests| && pages != [] && requests[0].before.None?
    && (forall k :: 0 <= k < |pages| ==> HubAccepts(pages[k], requests[k]) && pages[k].complete)
    && (forall k :: 0 < k < |pages| ==> Follows(pages[k - 1], pages[k], requests[k]))
  }

  predicate Follows(previous: Page, page: Page, request: Request) {
    Continues(previous, request) && previous.latest <= page.latest
  }

  /** Everything visited, oldest first. */
  function Visited(pages: seq<Page>): seq<int> {
    if pages == [] then [] else Seqs(pages[|pages| - 1].events) + Visited(pages[..|pages| - 1])
  }

  ghost predicate StrictlyAscending(q: seq<int>) {
    forall i, j :: 0 <= i < j < |q| ==> q[i] < q[j]
  }

  ghost predicate Within(q: seq<int>, low: int, high: int) {
    forall v :: v in q ==> low <= v <= high
  }

  /** Neighbours in order put the whole page in order. */
  lemma {:induction false} PageAscends(events: seq<Event>, i: nat, j: nat)
    requires Ascending(events) && i < j < |events|
    ensures events[i].seqNo < events[j].seqNo
    decreases j
  {
    if i < j - 1 {
      PageAscends(events, i, j - 1);
    }
  }

  /** What one accepted page adds lies between its cursor and the cursor it was asked for. */
  lemma PageWithin(page: Page, request: Request)
    requires HubAccepts(page, request)
    ensures StrictlyAscending(Seqs(page.events))
    ensures Within(Seqs(page.events), Oldest(page), page.latest)
    ensures request.before.Some? ==> Within(Seqs(page.events), Oldest(page), request.before.value - 1)
    ensures page.next.Some? ==> page.next.value in Seqs(page.events)
  {
    var q := Seqs(page.events);
    forall i, j | 0 <= i < j < |q|
      ensures q[i] < q[j]
    {
      PageAscends(page.events, i, j);
    }
    forall v | v in q
      ensures Oldest(page) <= v
    {
      var i :| 0 <= i < |q| && q[i] == v;
      if i > 0 {
        PageAscends(page.events, 0, i);
      }
    }
    if page.next.Some? {
      assert q[0] == page.next.value;
    }
  }

  lemma JoinAscending(a: seq<int>, b: seq<int>, low: int, middle: int, high: int)
    requires StrictlyAscending(a) && StrictlyAscending(b) && Within(a, low, middle - 1) && Within(b, middle, high)
    requires low <= middle <= high + 1
    ensures StrictlyAscending(a + b) && Within(a + b, low, high)
  {
    forall i, j | 0 <= i < j < |a + b|
      ensures (a + b)[i] < (a + b)[j]
    {
      assert i < |a| ==> (a + b)[i] in a;
      assert j >= |a| ==> (a + b)[j] in b;
    }
    assert forall v :: v in a + b ==> v in a || v in b;
  }

  lemma AcceptedPrefix(pages: seq<Page>, requests: seq<Request>)
    requires AcceptedWalk(pages, requests) && |pages| > 1
    ensures AcceptedWalk(pages[..|pages| - 1], requests[..|pages| - 1])
  {
    var n := |pages| - 1;
    var front, asked := pages[..n], requests[..n];
    assert forall k :: 0 <= k < n ==> front[k] == pages[k] && asked[k] == requests[k];
  }

  lemma AcceptedEndsWith(pages: seq<Page>, requests: seq<Request>)
    requires AcceptedWalk(pages, requests)
    ensures var n := |pages| - 1;
            && n >= 0 && n == |requests| - 1 && HubAccepts(pages[n], requests[n])
            && (if n == 0 then requests[0].before.None? else Continues(pages[n - 1], requests[n]))
  {
  }

  /**
    Whatever gaps retention left, following the cursors visits events in strictly ascending order, so none twice, and
    none outside the first page's range. The cursor falls with every page, so the walk ends.
  */
  lemma {:induction false} AcceptedWalkVisits(pages: seq<Page>, requests: seq<Request>)
    requires AcceptedWalk(pages, requests)
    ensures |pages| > 0
    ensures var last, latest := pages[|pages| - 1], pages[0].latest;
            && StrictlyAscending(Visited(pages)) && Within(Visited(pages), Oldest(last), latest)
            && (last.next.Some? ==> 1 <= last.next.value <= latest - |pages| + 1)
            && |pages| <= latest + 1
    ensures |pages| > 1 && pages[|pages| - 1].next.Some? ==>
              pages[|pages| - 2].next.Some? && pages[|pages| - 1].next.value < pages[|pages| - 2].next.value
    decreases |pages|
  {
    hide HubAccepts, Seqs, AcceptedWalk;
    var n := |pages| - 1;
    AcceptedEndsWith(pages, requests);
    PageWithin(pages[n], requests[n]);
    AcceptedBounds(pages[n], requests[n]);
    if n == 0 {
      assert pages[..0] == [];
      assert Visited(pages) == Seqs(pages[0].events) + [];
    } else {
      AcceptedPrefix(pages, requests);
      AcceptedWalkVisits(pages[..n], requests[..n]);
      var cursor := pages[n - 1].next.value;
      JoinAscending(Seqs(pages[n].events), Visited(pages[..n]), Oldest(pages[n]), cursor, pages[0].latest);
    }
  }

  /** Every page but the last is full: what was visited is as much as was asked for up to there, and the last page. */
  lemma {:induction false} AcceptedWalkFills(pages: seq<Page>, requests: seq<Request>)
    requires AcceptedWalk(pages, requests)
    ensures |pages| > 0 && |Visited(pages)| == Asked(requests[..|requests| - 1]) + |pages[|pages| - 1].events|
    ensures |pages[|pages| - 1].events| <= requests[|requests| - 1].limit <= 100
    decreases |pages|
  {
    var n := |pages| - 1;
    AcceptedEndsWith(pages, requests);
    if n == 0 {
      assert pages[..0] == [] && requests[..0] == [];
    } else {
      AcceptedPrefix(pages, requests);
      AcceptedWalkFills(pages[..n], requests[..n]);
      AcceptedEndsWith(pages[..n], requests[..n]);
      assert requests[..n][..n - 1] == requests[..n - 1];
    }
    hide AcceptedWalk;
  }

  /** How many events the requests ask for in all. */
  function Asked(requests: seq<Request>): int {
    if requests == [] then 0 else Asked(requests[..|requests| - 1]) + requests[|requests| - 1].limit
  }

  lemma AcceptedBounds(page: Page, request: Request)
    requires HubAccepts(page, request)
    ensures page.latest >= 0 && (page.next.Some? ==> page.next.value >= 1)
  {
  }

  /** Where the walk stands: the oldest event visited, or 1 at the end. */
  function Oldest(page: Page): int {
    if page.next.Some? then page.next.value else 1
  }

  lemma RangeJoins(a: int, b: int, c: int)
    requires a <= b + 1 && b <= c
    ensures Range(a, b) + Range(b + 1, c) == Range(a, c)
  {
  }

  /** What one complete page adds. */
  lemma PageRange(page: Page, request: Request)
    requires HubAccepts(page, request) && page.complete
    ensures Seqs(page.events) == Range(Oldest(page), Eligible(page, request))
    ensures 1 <= Oldest(page) <= Eligible(page, request) + 1
    ensures page.next.Some? ==> 2 <= page.next.value <= Eligible(page, request)
  {
    var eligible := Eligible(page, request);
    if page.next.Some? {
      assert Seqs(page.events)[0] == page.events[0].seqNo;
      assert Range(eligible - request.limit + 1, eligible)[0] == eligible - request.limit + 1;
    }
  }

  lemma WalkPrefix(pages: seq<Page>, requests: seq<Request>)
    requires Walk(pages, requests) && |pages| > 1
    ensures Walk(pages[..|pages| - 1], requests[..|pages| - 1])
  {
    var n := |pages| - 1;
    var front, asked := pages[..n], requests[..n];
    assert forall k :: 0 <= k < n ==> front[k] == pages[k] && asked[k] == requests[k];
  }

  lemma WalkEndsWith(pages: seq<Page>, requests: seq<Request>)
    requires Walk(pages, requests)
    ensures var n := |pages| - 1;
            && n >= 0 && n == |requests| - 1 && HubAccepts(pages[n], requests[n]) && pages[n].complete
            && (if n == 0 then requests[0].before.None? else Follows(pages[n - 1], pages[n], requests[n]))
  {
  }

  /**
    After any number of pages, exactly the events from where the walk stands to the first page's latest were visited
    once.
  */
  lemma {:induction false} WalkVisits(pages: seq<Page>, requests: seq<Request>)
    requires Walk(pages, requests)
    ensures |pages| > 0
    ensures var last := pages[|pages| - 1];
            && Visited(pages) == Range(Oldest(last), pages[0].latest)
            && 1 <= Oldest(last) <= pages[0].latest + 1 && pages[0].latest <= last.latest
            && (last.next.Some? ==> 2 <= last.next.value <= pages[0].latest - |pages| + 1)
    decreases |pages|
  {
    hide HubAccepts, Range, Seqs, Walk;
    var n := |pages| - 1;
    WalkEndsWith(pages, requests);
    PageRange(pages[n], requests[n]);
    if n == 0 {
      assert pages[..0] == [];
    } else {
      WalkPrefix(pages, requests);
      WalkVisits(pages[..n], requests[..n]);
      RangeJoins(Oldest(pages[n]), Oldest(pages[n - 1]) - 1, pages[0].latest);
    }
  }

  /** The walk ends, having visited 1 to the latest event exactly once, in at most as many pages as there are events. */
  lemma WalkEnds(pages: seq<Page>, requests: seq<Request>)
    requires Walk(pages, requests)
    ensures |pages| <= pages[0].latest || |pages| == 1
    ensures pages[|pages| - 1].next.None? ==> Visited(pages) == Range(1, pages[0].latest)
    ensures pages[|pages| - 1].next.Some? ==> |pages| < pages[0].latest
  {
    WalkVisits(pages, requests);
    if |pages| > 1 {
      WalkPrefix(pages, requests);
      WalkVisits(pages[..|pages| - 1], requests[..|pages| - 1]);
      assert Follows(pages[|pages| - 2], pages[|pages| - 1], requests[|pages| - 1]);
    }
  }
}
