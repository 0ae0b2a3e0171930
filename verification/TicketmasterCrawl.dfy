/**
 The Ticketmaster crawl: a work stack of date windows that is split where the
 provider is too dense to page through, and paged where it is not. The stack
 always tiles the rest of the horizon, so what was read before a failure is a
 complete prefix of the calendar.
 */
module TicketmasterCrawl {
  import opened Prelude

  const MAX_PAGE_SIZE: nat := 200
  const DEEP_PAGING_LIMIT: nat := 1000
  const MIN_WINDOW: int := 24 * 3600      // seconds
  const MAX_REQUESTS: nat := 80

  /** When a listing takes place: at a second, or on a date still to be announced or determined. */
  datatype When = Dated(at: int) | ToBeAnnounced | ToBeDetermined

  /** A listing on the provider's side. Only mappable ones carry coordinates and a usable date. */
  datatype RawEvent = RawEvent(id: Option<string>, when: When, mappable: bool, content: int)

  datatype Query = Window(lo: int, hi: int) | OnlyTBA | OnlyTBD

  predicate Selects(q: Query, e: RawEvent) {
    match q
    case Window(lo, hi) => e.when.Dated? && lo <= e.when.at <= hi
    case OnlyTBA => e.when.ToBeAnnounced?
    case OnlyTBD => e.when.ToBeDetermined?
  }

  /** What the provider holds for a query, in its own order. */
  function Results(corpus: seq<RawEvent>, q: Query): seq<RawEvent> {
    if corpus == [] then [] else
      (if Selects(q, corpus[0]) then [corpus[0]] else []) + Results(corpus[1..], q)
  }

  /** `ceil(n / size)` */
  function PagesNeeded(n: nat, size: nat): nat
    requires size >= 1
  {
    if n == 0 then 0 else if n <= size then 1 else 1 + PagesNeeded(n - size, size)
  }

  function PageStart(page: nat, size: nat): nat {
    if page == 0 then 0 else PageStart(page - 1, size) + size
  }

  /** Page `page` of a result list. */
  function PageOf(results: seq<RawEvent>, page: nat, size: nat): seq<RawEvent> {
    var lo := PageStart(page, size);
    if lo >= |results| then [] else results[lo..Min(lo + size, |results|)]
  }

  lemma {:induction false} ResultsMembers(corpus: seq<RawEvent>, q: Query)
    ensures forall e :: e in Results(corpus, q) <==> e in corpus && Selects(q, e)
  {
    if corpus != [] {
      ResultsMembers(corpus[1..], q);
      assert corpus == [corpus[0]] + corpus[1..];
    }
  }

  /** Reading that many pages reads everything, and no fewer do. */
  lemma {:induction false} PagesNeededExactly(n: nat, size: nat, k: nat)
    requires size >= 1
    ensures k >= PagesNeeded(n, size) <==> PageStart(k, size) >= n
    decreases k
  {
    if k > 0 {
      if n > size {
        PagesNeededExactly(n - size, size, k - 1);
        PageStartShift(k, size);
      } else {
        PageStartGrows(k, size);
      }
    }
  }

  lemma {:induction false} PageStartShift(k: nat, size: nat)
    ensures k > 0 ==> PageStart(k, size) == PageStart(k - 1, size) + size
  {
  }

  lemma {:induction false} PageStartGrows(k: nat, size: nat)
    requires k > 0
    ensures PageStart(k, size) >= size
  {
  }

  /** Provider ids name one listing each. */
  ghost predicate UniqueIds(corpus: seq<RawEvent>) {
    forall a, b :: a in corpus && b in corpus && HasId(a) && HasId(b) && a.id == b.id ==> a == b
  }

  predicate HasId(e: RawEvent) {
    e.id.Some? && e.id.value != ""
  }

  datatype FetchError = BudgetExhausted | RequestFailed(page: nat) | WindowCapReached | UndatedCapReached

  datatype BadRequest = NotPositive

  datatype Page = Page(events: seq<RawEvent>, totalPages: nat, totalElements: nat)

  /** The provider during one run: a fixed corpus, and which requests fail in transit. */
  datatype Server = Server(corpus: seq<RawEvent>, fails: nat -> bool)

  // ---------- how a crawl ends, as the server and the arguments decide it ----------

  /** How reading one query ends, and how many requests the run has made by then. */
  datatype ReadEnd = Whole(made: nat) | Split(made: nat) | Stopped(made: nat, error: FetchError)

  function CapError(q: Query): FetchError {
    if q.Window? then WindowCapReached else UndatedCapReached
  }

  /** More results than deep paging reaches. */
  predicate Dense(server: Server, q: Query, size: nat)
    requires size >= 1
  {
    var n := |Results(server.corpus, q)|;
    n > DEEP_PAGING_LIMIT || PagesNeeded(n, size) > PagesNeeded(DEEP_PAGING_LIMIT, size)
  }

  function QueryEnd(server: Server, q: Query, size: nat, maySplit: bool, page: nat, made: nat): (end: ReadEnd)
    requires size >= 1 && made <= MAX_REQUESTS
    ensures made <= end.made <= MAX_REQUESTS
    ensures page == 0 && !end.Stopped? ==> end.made > made
    decreases PagesNeeded(DEEP_PAGING_LIMIT, size) + 1 - page
  {
    var n := |Results(server.corpus, q)|;
    if page > 0 && page >= PagesNeeded(n, size) then
      if n > DEEP_PAGING_LIMIT then Stopped(made, CapError(q)) else Whole(made)
    else if page > 0 && page >= PagesNeeded(DEEP_PAGING_LIMIT, size) then Stopped(made, CapError(q))
    else if made >= MAX_REQUESTS then Stopped(made, BudgetExhausted)
    else if server.fails(made + 1) then Stopped(made + 1, RequestFailed(page))
    else if page == 0 && Dense(server, q, size) && maySplit then Split(made + 1)
    else QueryEnd(server, q, size, maySplit, page + 1, made + 1)
  }

  /** The instant that cuts a window in halves of the same length, up to a second. */
  function Middle(lo: int, hi: int): (middle: int)
    ensures lo <= hi ==> 0 <= (hi - middle) - (middle - lo) <= 1
  {
    lo + (hi - lo) / 2
  }

  /** The window on top of the stack cut in two, the earlier half on top. */
  function Halves(lo: int, hi: int): seq<(int, int)> {
    [(Middle(lo, hi), hi), (lo, Middle(lo, hi))]
  }

  /** How the window stack ends: the requests made, and the error that stopped it, if one did. */
  function StackEnd(server: Server, pending: seq<(int, int)>, size: nat, made: nat): (end: (nat, Option<FetchError>))
    requires size >= 1 && made <= MAX_REQUESTS
    ensures end.0 <= MAX_REQUESTS
    decreases MAX_REQUESTS - made
  {
    if pending == [] then (made, None) else
      var (lo, hi) := pending[|pending| - 1];
      var rest := pending[..|pending| - 1];
      match QueryEnd(server, Window(lo, hi), size, hi - lo > MIN_WINDOW, 0, made)
      case Whole(m) => StackEnd(server, rest, size, m)
      case Split(m) => StackEnd(server, rest + Halves(lo, hi), size, m)
      case Stopped(m, e) => (m, Some(e))
  }

  function UndatedEnd(server: Server, size: nat, made: nat): (nat, Option<FetchError>)
    requires size >= 1 && made <= MAX_REQUESTS
  {
    match QueryEnd(server, OnlyTBA, size, false, 0, made)
    case Stopped(m, e) => (m, Some(e))
    case tba =>
      match QueryEnd(server, OnlyTBD, size, false, 0, tba.made)
      case Stopped(m, e) => (m, Some(e))
      case tbd => (tbd.made, None)
  }

  /** How a crawl ends: the window stack over the whole horizon, then the undated passes. */
  function CrawlEnd(server: Server, size: nat, start: int, end: int): (nat, Option<FetchError>)
    requires size >= 1
  {
    var windows := StackEnd(server, [(start, end)], size, 0);
    if windows.1.Some? then windows else UndatedEnd(server, size, windows.0)
  }

  /** `fetch_events` asks for pages of at most 200 and a horizon of whole days. */
  function FetchEnd(server: Server, size: int, horizonDays: int, now: int): (nat, Option<FetchError>)
    requires size >= 1
  {
    CrawlEnd(server, Min(size, MAX_PAGE_SIZE), now, now + horizonDays * MIN_WINDOW)
  }

  /** What a crawl that ended after `made` requests may blame. */
  ghost predicate HasCause(server: Server, made: nat, error: FetchError) {
    match error
    case BudgetExhausted => made == MAX_REQUESTS
    case RequestFailed(_) => made > 0 && server.fails(made)
    case WindowCapReached =>
      exists lo, hi :: hi - lo <= MIN_WINDOW && |Results(server.corpus, Window(lo, hi))| > DEEP_PAGING_LIMIT
    case UndatedCapReached =>
      |Results(server.corpus, OnlyTBA)| > DEEP_PAGING_LIMIT || |Results(server.corpus, OnlyTBD)| > DEEP_PAGING_LIMIT
  }

  /** Deep paging stops short only of more than a thousand results. */
  lemma {:induction false} DenseExactly(server: Server, q: Query, size: nat)
    requires size >= 1
    ensures Dense(server, q, size) <==> |Results(server.corpus, q)| > DEEP_PAGING_LIMIT
  {
    var n, limit := |Results(server.corpus, q)|, PagesNeeded(DEEP_PAGING_LIMIT, size);
    PagesNeededExactly(DEEP_PAGING_LIMIT, size, limit);
    PagesNeededExactly(n, size, limit);
  }

  lemma {:induction false} QueryEndHasCause(server: Server, q: Query, size: nat, maySplit: bool, page: nat, made: nat)
    requires size >= 1 && made <= MAX_REQUESTS
    requires page > 0 ==> !(maySplit && Dense(server, q, size))
    requires q.Window? && !maySplit ==> q.hi - q.lo <= MIN_WINDOW
    ensures var end := QueryEnd(server, q, size, maySplit, page, made);
      end.Stopped? ==> HasCause(server, end.made, end.error)
    decreases PagesNeeded(DEEP_PAGING_LIMIT, size) + 1 - page
  {
    DenseExactly(server, q, size);
    PageLimitPositive(size);
    var n := |Results(server.corpus, q)|;
    if page > 0 && (page >= PagesNeeded(n, size) || page >= PagesNeeded(DEEP_PAGING_LIMIT, size)) {
      if n > DEEP_PAGING_LIMIT && q.Window? {
        assert !maySplit;
        assert |Results(server.corpus, Window(q.lo, q.hi))| > DEEP_PAGING_LIMIT;
      }
    } else if made < MAX_REQUESTS && !server.fails(made + 1) && !(page == 0 && Dense(server, q, size) && maySplit) {
      QueryEndHasCause(server, q, size, maySplit, page + 1, made + 1);
    }
  }

  lemma {:induction false} StackEndHasCause(server: Server, pending: seq<(int, int)>, size: nat, made: nat)
    requires size >= 1 && made <= MAX_REQUESTS
    ensures var end := StackEnd(server, pending, size, made); end.1.Some? ==> HasCause(server, end.0, end.1.value)
    decreases MAX_REQUESTS - made
  {
    if pending != [] {
      var (lo, hi) := pending[|pending| - 1];
      var rest := pending[..|pending| - 1];
      QueryEndHasCause(server, Window(lo, hi), size, hi - lo > MIN_WINDOW, 0, made);
      match QueryEnd(server, Window(lo, hi), size, hi - lo > MIN_WINDOW, 0, made)
      case Whole(m) => StackEndHasCause(server, rest, size, m);
      case Split(m) => StackEndHasCause(server, rest + Halves(lo, hi), size, m);
      case Stopped(_, _) =>
    }
  }

  /**
   A crawl ends in error only for cause: eighty requests were made, the last
   request failed, or a day's window or an undated pass holds more than a thousand
   listings.
   */
  lemma {:induction false} ErrorsHaveCause(server: Server, size: int, horizonDays: int, now: int)
    requires size >= 1
    ensures var end := FetchEnd(server, size, horizonDays, now); end.1.Some? ==> HasCause(server, end.0, end.1.value)
  {
    var pageSize: nat := Min(size, MAX_PAGE_SIZE);
    var pending := [(now, now + horizonDays * MIN_WINDOW)];
    StackEndHasCause(server, pending, pageSize, 0);
    var windows := StackEnd(server, pending, pageSize, 0);
    QueryEndHasCause(server, OnlyTBA, pageSize, false, 0, windows.0);
    QueryEndHasCause(server, OnlyTBD, pageSize, false, 0,
                     QueryEnd(server, OnlyTBA, pageSize, false, 0, windows.0).made);
  }

  // ---------- what a crawl costs when nothing fails ----------

  /** The requests a query takes: one page at least. */
  function PagesOf(server: Server, q: Query, size: nat): nat
    requires size >= 1
  {
    Max(1, PagesNeeded(|Results(server.corpus, q)|, size))
  }

  /**
   The requests a window takes, or none where it cannot be read whole: its pages if
   it holds at most a thousand listings, and otherwise one request that shows as
   much, and then what its two halves take. A day or less is not cut.
   */
  function WindowCost(server: Server, lo: int, hi: int, size: nat): Option<nat>
    requires size >= 1
    decreases hi - lo
  {
    if |Results(server.corpus, Window(lo, hi))| <= 1000 then Some(PagesOf(server, Window(lo, hi), size))
    else if hi - lo <= MIN_WINDOW then None
    else
      var first, second := WindowCost(server, lo, Middle(lo, hi), size), WindowCost(server, Middle(lo, hi), hi, size);
      if first.None? || second.None? then None else Some(1 + first.value + second.value)
  }

  ghost predicate NothingFails(server: Server) {
    forall n: nat :: n <= MAX_REQUESTS ==> !server.fails(n)
  }

  /** Page by page, a query of at most a thousand listings is read whole if its pages fit the budget. */
  lemma {:induction false} SparseQueryEnd(server: Server, q: Query, size: nat, maySplit: bool, page: nat, made: nat)
    requires size >= 1 && made <= MAX_REQUESTS && NothingFails(server)
    requires |Results(server.corpus, q)| <= 1000 && page <= PagesOf(server, q, size)
    ensures QueryEnd(server, q, size, maySplit, page, made) ==
            var rest := PagesOf(server, q, size) - page;
            if made + rest <= MAX_REQUESTS then Whole(made + rest) else Stopped(MAX_REQUESTS, BudgetExhausted)
    decreases PagesOf(server, q, size) - page
  {
    var n := |Results(server.corpus, q)|;
    DenseExactly(server, q, size);
    PagesNeededGrow(n, DEEP_PAGING_LIMIT, size);
    PageLimitPositive(size);
    if page < PagesOf(server, q, size) && made < MAX_REQUESTS {
      SparseQueryEnd(server, q, size, maySplit, page + 1, made + 1);
    }
  }

  lemma {:induction false} PagesNeededGrow(m: nat, n: nat, size: nat)
    requires size >= 1 && m <= n
    ensures PagesNeeded(m, size) <= PagesNeeded(n, size)
  {
    PagesNeededExactly(n, size, PagesNeeded(n, size));
    PagesNeededExactly(m, size, PagesNeeded(n, size));
  }

  /** A query of more is cut where it may be, after one request, and otherwise stops the crawl. */
  lemma {:induction false} DenseQueryEnd(server: Server, q: Query, size: nat, maySplit: bool, page: nat, made: nat)
    requires size >= 1 && made <= MAX_REQUESTS && NothingFails(server)
    requires |Results(server.corpus, q)| > 1000 && (page > 0 ==> !maySplit)
    ensures var end := QueryEnd(server, q, size, maySplit, page, made);
            if made < MAX_REQUESTS && maySplit then end == Split(made + 1)
            else if made >= MAX_REQUESTS && page == 0 then end == Stopped(made, BudgetExhausted)
            else end.Stopped?
    decreases PagesNeeded(DEEP_PAGING_LIMIT, size) + 1 - page
  {
    DenseExactly(server, q, size);
    PageLimitPositive(size);
    if made < MAX_REQUESTS && !maySplit
      && (page == 0 || (page < PagesNeeded(|Results(server.corpus, q)|, size)
                        && page < PagesNeeded(DEEP_PAGING_LIMIT, size))) {
      DenseQueryEnd(server, q, size, maySplit, page + 1, made + 1);
    }
  }

  /** The window on top of the stack takes what it costs, however often it is cut. */
  lemma {:induction false} TopTakesItsCost(server: Server, rest: seq<(int, int)>, lo: int, hi: int, size: nat,
                                           made: nat)
    requires size >= 1 && made <= MAX_REQUESTS && NothingFails(server)
    ensures var cost, end := WindowCost(server, lo, hi, size), StackEnd(server, rest + [(lo, hi)], size, made);
            if cost.Some? && made + cost.value <= MAX_REQUESTS
            then end == StackEnd(server, rest, size, made + cost.value)
            else end.1.Some?
    decreases hi - lo, 1
  {
    var q := Window(lo, hi);
    TopOfPending(server, rest, lo, hi, size, made);
    if |Results(server.corpus, q)| <= 1000 {
      SparseQueryEnd(server, q, size, hi - lo > MIN_WINDOW, 0, made);
    } else {
      DenseQueryEnd(server, q, size, hi - lo > MIN_WINDOW, 0, made);
      if hi - lo > MIN_WINDOW && made < MAX_REQUESTS {
        HalvesTakeTheirCost(server, rest, lo, hi, size, made + 1);
      }
    }
  }

  lemma {:induction false} HalvesTakeTheirCost(server: Server, rest: seq<(int, int)>, lo: int, hi: int, size: nat,
                                               made: nat)
    requires size >= 1 && made <= MAX_REQUESTS && NothingFails(server) && hi - lo > MIN_WINDOW
    ensures var middle := Middle(lo, hi);
            var first, second := WindowCost(server, lo, middle, size), WindowCost(server, middle, hi, size);
            var end := StackEnd(server, (rest + [(middle, hi)]) + [(lo, middle)], size, made);
            if first.Some? && second.Some? && made + first.value + second.value <= MAX_REQUESTS
            then end == StackEnd(server, rest, size, made + first.value + second.value)
            else end.1.Some?
    decreases hi - lo, 0
  {
    var middle := Middle(lo, hi);
    TopTakesItsCost(server, rest + [(middle, hi)], lo, middle, size, made);
    var first := WindowCost(server, lo, middle, size);
    if first.Some? && made + first.value <= MAX_REQUESTS {
      TopTakesItsCost(server, rest, middle, hi, size, made + first.value);
    }
  }

  lemma {:induction false} TopOfPending(server: Server, rest: seq<(int, int)>, lo: int, hi: int, size: nat, made: nat)
    requires size >= 1 && made <= MAX_REQUESTS
    ensures StackEnd(server, rest + [(lo, hi)], size, made) ==
            match QueryEnd(server, Window(lo, hi), size, hi - lo > MIN_WINDOW, 0, made)
            case Whole(m) => StackEnd(server, rest, size, m)
            case Split(m) => StackEnd(server, (rest + [(Middle(lo, hi), hi)]) + [(lo, Middle(lo, hi))], size, m)
            case Stopped(m, e) => (m, Some(e))
  {
    assert (rest + [(lo, hi)])[..|rest|] == rest;
    assert rest + Halves(lo, hi) == (rest + [(Middle(lo, hi), hi)]) + [(lo, Middle(lo, hi))];
  }

  lemma {:induction false} UndatedTakesItsCost(server: Server, size: nat, made: nat)
    requires size >= 1 && made <= MAX_REQUESTS && NothingFails(server)
    ensures var cost := PagesOf(server, OnlyTBA, size) + PagesOf(server, OnlyTBD, size);
            var sparse := |Results(server.corpus, OnlyTBA)| <= 1000 && |Results(server.corpus, OnlyTBD)| <= 1000;
            if sparse && made + cost <= MAX_REQUESTS then UndatedEnd(server, size, made) == (made + cost, None)
            else UndatedEnd(server, size, made).1.Some?
  {
    if |Results(server.corpus, OnlyTBA)| <= 1000 {
      SparseQueryEnd(server, OnlyTBA, size, false, 0, made);
      var tba := made + PagesOf(server, OnlyTBA, size);
      if tba <= MAX_REQUESTS {
        if |Results(server.corpus, OnlyTBD)| <= 1000 {
          SparseQueryEnd(server, OnlyTBD, size, false, 0, tba);
        } else {
          DenseQueryEnd(server, OnlyTBD, size, false, 0, tba);
        }
      }
    } else {
      DenseQueryEnd(server, OnlyTBA, size, false, 0, made);
    }
  }

  /** What the whole crawl takes, or none where some part of it cannot be read whole. */
  function CrawlCost(server: Server, start: int, end: int, size: nat): Option<nat>
    requires size >= 1
  {
    var windows := WindowCost(server, start, end, size);
    if windows.None? || |Results(server.corpus, OnlyTBA)| > 1000 || |Results(server.corpus, OnlyTBD)| > 1000 then None
    else Some(windows.value + PagesOf(server, OnlyTBA, size) + PagesOf(server, OnlyTBD, size))
  }

  lemma {:induction false} CrawlTakesItsCost(server: Server, start: int, end: int, size: nat)
    requires size >= 1 && NothingFails(server)
    ensures var cost := CrawlCost(server, start, end, size);
            if cost.Some? && cost.value <= MAX_REQUESTS then CrawlEnd(server, size, start, end) == (cost.value, None)
            else CrawlEnd(server, size, start, end).1.Some?
  {
    assert [] + [(start, end)] == [(start, end)];
    TopTakesItsCost(server, [], start, end, size, 0);
    var windows := WindowCost(server, start, end, size);
    if windows.Some? && windows.value <= MAX_REQUESTS {
      assert StackEnd(server, [(start, end)], size, 0) == (windows.value, None);
      UndatedTakesItsCost(server, size, windows.value);
    }
  }

  /**
   When no request fails, a crawl ends without an error exactly when everything can
   be read whole within eighty requests, and then it makes exactly the requests
   that takes: a window is cut only where it holds more than a thousand listings.
   */
  lemma {:induction false} CrawlEndsCleanExactly(server: Server, size: int, horizonDays: int, now: int)
    requires size >= 1 && NothingFails(server)
    ensures var end := FetchEnd(server, size, horizonDays, now);
            var cost := CrawlCost(server, now, now + horizonDays * MIN_WINDOW, Min(size, 200));
            && (end.1 == None <==> cost.Some? && cost.value <= 80)
            && (end.1 == None ==> end.0 == cost.value)
  {
    CrawlTakesItsCost(server, now, now + horizonDays * MIN_WINDOW, Min(size, 200));
  }

  /** In particular, a horizon of at most a thousand listings is read in its pages, and cut nowhere. */
  lemma {:induction false} SparseCrawlIsClean(server: Server, size: int, horizonDays: int, now: int)
    requires size >= 1 && NothingFails(server)
    requires |Results(server.corpus, Window(now, now + horizonDays * MIN_WINDOW))| <= 1000
    requires |Results(server.corpus, OnlyTBA)| <= 1000 && |Results(server.corpus, OnlyTBD)| <= 1000
    ensures var pageSize: nat := Min(size, 200);
            var pages := PagesOf(server, Window(now, now + horizonDays * MIN_WINDOW), pageSize)
                         + PagesOf(server, OnlyTBA, pageSize) + PagesOf(server, OnlyTBD, pageSize);
            pages <= 80 ==> FetchEnd(server, size, horizonDays, now) == (pages, None)
  {
    CrawlTakesItsCost(server, now, now + horizonDays * MIN_WINDOW, Min(size, 200));
  }

  class TicketmasterSource {
    var lastFetchError: Option<FetchError>
    var pendingSync: Option<int>
    var requestsMade: nat
    var seenIds: set<string>
    var canonical: seq<RawEvent>
    ghost var asked: seq<Query>  // every page read, including the ones the budget refused

    constructor ()
      ensures lastFetchError == None && pendingSync == None
    {
      lastFetchError, pendingSync := None, None;
      requestsMade, seenIds, canonical, asked := 0, {}, [], [];
    }

    /** The output holds only mappable listings of the corpus, each id once, and `seenIds` knows them. */
    ghost predicate Sound(corpus: seq<RawEvent>)
      reads this
    {
      && requestsMade <= MAX_REQUESTS
      && (forall e :: e in canonical ==> e in corpus && e.mappable)
      && (forall e :: e in canonical && HasId(e) ==> e.id.value in seenIds)
      && (forall id :: id in seenIds ==> exists e :: e in canonical && HasId(e) && e.id.value == id)
      && (forall i, j :: 0 <= i < j < |canonical| && HasId(canonical[i]) ==> canonical[i].id != canonical[j].id)
    }

    /** `read_page`: one request against the shared budget. */
    method ReadPage(server: Server, q: Query, page: nat, size: nat) returns (payload: Option<Page>)
      requires size >= 1 && Sound(server.corpus) && lastFetchError == None
      modifies this`requestsMade, this`lastFetchError, this`asked
      ensures Sound(server.corpus)
      ensures asked == old(asked) + [q]
      ensures requestsMade == old(requestsMade) + (if old(requestsMade) < MAX_REQUESTS then 1 else 0)
      ensures payload.None? <==> old(requestsMade) >= MAX_REQUESTS || server.fails(requestsMade)
      ensures payload.None? <==> lastFetchError.Some?
      ensures payload.None? ==>
                lastFetchError == Some(if old(requestsMade) >= MAX_REQUESTS then BudgetExhausted
                                       else RequestFailed(page))
      ensures payload.Some? ==>
                var results := Results(server.corpus, q);
                payload.value == Page(PageOf(results, page, size), PagesNeeded(|results|, size), |results|)
    {
      asked := asked + [q];
      if requestsMade >= MAX_REQUESTS {
        lastFetchError := Some(BudgetExhausted);
        return None;
      }
      requestsMade := requestsMade + 1;
      if server.fails(requestsMade) {
        lastFetchError := Some(RequestFailed(page));
        return None;
      }
      var results := Results(server.corpus, q);
      payload := Some(Page(PageOf(results, page, size), PagesNeeded(|results|, size), |results|));
    }

    /** `append_events`: map, drop what does not map, skip ids already seen. */
    method AppendEvents(corpus: seq<RawEvent>, events: seq<RawEvent>)
      requires Sound(corpus) && UniqueIds(corpus)
      requires forall e :: e in events ==> e in corpus
      modifies this`seenIds, this`canonical
      ensures Sound(corpus)
      ensures forall e :: e in canonical <==> e in old(canonical) || (e in events && e.mappable)
    {
      for i := 0 to |events|
        invariant Sound(corpus)
        invariant forall e :: e in canonical <==> e in old(canonical) || (e in events[..i] && e.mappable)
      {
        var raw := events[i];
        assert events[..i + 1] == events[..i] + [raw];
        if raw.mappable {
          if HasId(raw) {
            if raw.id.value in seenIds {
              assert raw in canonical;
              continue;
            }
            seenIds := seenIds + {raw.id.value};
          }
          label before:
          canonical := canonical + [raw];
          assert forall e :: e in canonical <==> e in old@before(canonical) || e == raw;
        }
      }
    }

    /** The first `n` results of a query are in the output, as far as they map. */
    ghost predicate HoldsFirst(results: seq<RawEvent>, n: nat)
      reads this`canonical
    {
      forall i :: 0 <= i < |results| && i < n && results[i].mappable ==> results[i] in canonical
    }

    /** The output gained only what `q` selects, and lost nothing. */
    twostate predicate GainedOnly(q: Query)
      reads this`canonical
    {
      && (forall e :: e in old(canonical) ==> e in canonical)
      && (forall e :: e in canonical ==> e in old(canonical) || Selects(q, e))
    }

    /** Append one page of a query's results. */
    method AppendPage(corpus: seq<RawEvent>, q: Query, page: nat, size: nat, events: seq<RawEvent>)
      requires Sound(corpus) && UniqueIds(corpus)
      requires events == PageOf(Results(corpus, q), page, size)
      requires HoldsFirst(Results(corpus, q), PageStart(page, size))
      modifies this`seenIds, this`canonical
      ensures Sound(corpus) && GainedOnly(q)
      ensures HoldsFirst(Results(corpus, q), PageStart(page + 1, size))
    {
      ResultsMembers(corpus, q);
      PageMembers(Results(corpus, q), page, size);
      AppendEvents(corpus, events);
    }

    /** How reading a query has just ended. */
    ghost function EndOf(split: bool): ReadEnd
      reads this`lastFetchError, this`requestsMade
    {
      if lastFetchError.Some? then Stopped(requestsMade, lastFetchError.value)
      else if split then Split(requestsMade) else Whole(requestsMade)
    }

    /** One page of a query: it fails, shows the query too dense to read whole, or is appended. */
    method ReadNext(server: Server, q: Query, page: nat, size: nat, maySplit: bool)
      returns (split: bool, totalPages: nat, totalElements: nat)
      requires size >= 1 && UniqueIds(server.corpus) && Sound(server.corpus) && lastFetchError == None
      requires page > 0 ==>
                 page < PagesNeeded(|Results(server.corpus, q)|, size) && page < PagesNeeded(DEEP_PAGING_LIMIT, size)
      requires HoldsFirst(Results(server.corpus, q), PageStart(page, size))
      modifies this`requestsMade, this`lastFetchError, this`asked, this`seenIds, this`canonical
      ensures Sound(server.corpus) && asked == old(asked) + [q] && GainedOnly(q)
      ensures lastFetchError.Some? || requestsMade == old(requestsMade) + 1
      ensures split ==> maySplit && lastFetchError == None && |Results(server.corpus, q)| > 1000
      ensures !split && lastFetchError == None ==>
                && totalPages == PagesNeeded(|Results(server.corpus, q)|, size)
                   && totalElements == |Results(server.corpus, q)|
                && HoldsFirst(Results(server.corpus, q), PageStart(page + 1, size))
      ensures QueryEnd(server, q, size, maySplit, page, old(requestsMade)) ==
              if split || lastFetchError.Some? then EndOf(split)
              else QueryEnd(server, q, size, maySplit, page + 1, requestsMade)
    {
      split, totalPages, totalElements := false, 0, 0;
      var payload := ReadPage(server, q, page, size);
      if payload.None? {
        return;
      }
      totalPages, totalElements := payload.value.totalPages, payload.value.totalElements;
      if page == 0 && (totalElements > DEEP_PAGING_LIMIT || totalPages > PagesNeeded(DEEP_PAGING_LIMIT, size))
          && maySplit {
        DenseExactly(server, q, size);
        split := true;
        return;
      }
      AppendPage(server.corpus, q, page, size, payload.value.events);
    }

    /** Page after page, to the last one or to the deep-paging limit. */
    method ReadPages(server: Server, q: Query, size: nat, maySplit: bool)
      returns (split: bool, page: nat, totalPages: nat, totalElements: nat)
      requires size >= 1 && UniqueIds(server.corpus) && Sound(server.corpus) && lastFetchError == None
      modifies this`requestsMade, this`lastFetchError, this`asked, this`seenIds, this`canonical
      ensures Sound(server.corpus) && GainedOnly(q)
      ensures asked != [] && asked[|asked| - 1] == q
      ensures lastFetchError.Some? || requestsMade > old(requestsMade)
      ensures split ==> maySplit && lastFetchError == None && |Results(server.corpus, q)| > 1000
      ensures !split && lastFetchError == None ==>
                && page > 0
                && totalPages == PagesNeeded(|Results(server.corpus, q)|, size)
                   && totalElements == |Results(server.corpus, q)|
                && (page >= PagesNeeded(|Results(server.corpus, q)|, size)
                    || page >= PagesNeeded(DEEP_PAGING_LIMIT, size))
                && HoldsFirst(Results(server.corpus, q), PageStart(page, size))
      ensures QueryEnd(server, q, size, maySplit, 0, old(requestsMade)) ==
              if split || lastFetchError.Some? then EndOf(split)
              else QueryEnd(server, q, size, maySplit, page, requestsMade)
    {
      var pageLimit := PagesNeeded(DEEP_PAGING_LIMIT, size);
      PageLimitPositive(size);
      split, page, totalPages, totalElements := false, 0, 1, 0;
      while page < totalPages && page < pageLimit
        invariant Sound(server.corpus) && lastFetchError == None && page <= pageLimit && !split
        invariant page == 0 ==> requestsMade == old(requestsMade) && totalPages == 1
        invariant page > 0 ==> asked != [] && asked[|asked| - 1] == q && requestsMade > old(requestsMade)
        invariant page > 0 ==>
                    totalPages == PagesNeeded(|Results(server.corpus, q)|, size)
                    && totalElements == |Results(server.corpus, q)|
        invariant GainedOnly(q)
        invariant HoldsFirst(Results(server.corpus, q), PageStart(page, size))
        invariant QueryEnd(server, q, size, maySplit, 0, old(requestsMade)) ==
                  QueryEnd(server, q, size, maySplit, page, requestsMade)
        decreases pageLimit - page
      {
        split, totalPages, totalElements := ReadNext(server, q, page, size, maySplit);
        if split || lastFetchError.Some? {
          return;
        }
        page := page + 1;
      }
    }

    /**
     Read one query page by page, up to the deep-paging limit. A window that is
     too dense and longer than a day is handed back to be split instead.
     */
    method ReadQuery(server: Server, q: Query, size: nat, maySplit: bool) returns (split: bool)
      requires size >= 1 && UniqueIds(server.corpus) && Sound(server.corpus) && lastFetchError == None
      modifies this`requestsMade, this`lastFetchError, this`asked, this`seenIds, this`canonical
      ensures Sound(server.corpus)
      ensures asked != [] && asked[|asked| - 1] == q
      ensures lastFetchError.Some? || requestsMade > old(requestsMade)
      ensures GainedOnly(q)
      ensures split ==> maySplit && lastFetchError == None && |Results(server.corpus, q)| > 1000
      ensures !split && lastFetchError == None ==> HoldsFirst(Results(server.corpus, q), |Results(server.corpus, q)|)
      ensures !split && lastFetchError == None ==> |Results(server.corpus, q)| <= 1000
      ensures QueryEnd(server, q, size, maySplit, 0, old(requestsMade)) == EndOf(split)
    {
      var page, totalPages, totalElements: nat;
      split, page, totalPages, totalElements := ReadPages(server, q, size, maySplit);
      if split || lastFetchError.Some? {
        return;
      }
      if page < totalPages || totalElements > DEEP_PAGING_LIMIT {
        lastFetchError := Some(if q.Window? then WindowCapReached else UndatedCapReached);
      } else {
        PagesNeededExactly(totalElements, size, page);
      }
    }

    /** Everything mappable the corpus dates in `[lo, hi)` is in the output. */
    ghost predicate CoversBefore(corpus: seq<RawEvent>, lo: int, hi: int)
      reads this`canonical
    {
      forall e :: e in corpus && e.mappable && e.when.Dated? && lo <= e.when.at < hi ==> e in canonical
    }

    ghost predicate CoversQuery(corpus: seq<RawEvent>, q: Query)
      reads this`canonical
    {
      forall e :: e in corpus && e.mappable && Selects(q, e) ==> e in canonical
    }

    /** When the crawl stopped inside the window it asked for last, everything dated before that window is in. */
    ghost predicate CompletePrefix(corpus: seq<RawEvent>, start: int, end: int)
      reads this`canonical, this`asked
    {
      && asked != []
      && match asked[|asked| - 1]
         case Window(lo, _) => CoversBefore(corpus, start, lo)
         case _ => CoversBefore(corpus, start, end + 1)
    }

    ghost predicate OutputWithin(start: int, end: int)
      reads this`canonical
    {
      forall e :: e in canonical ==> InScope(e, start, end)
    }

    /** Read one window off the stack: it is read whole, split in two, or the crawl stops in it. */
    method ReadWindow(server: Server, pending: seq<(int, int)>, size: nat, start: int, end: int)
      returns (rest: seq<(int, int)>)
      requires size >= 1 && UniqueIds(server.corpus) && Sound(server.corpus) && lastFetchError == None
      requires pending != [] && Tiles(pending, start, end) && OutputWithin(start, end)
      requires CoversBefore(server.corpus, start, Frontier(pending, end))
      modifies this`requestsMade, this`lastFetchError, this`asked, this`seenIds, this`canonical
      ensures Sound(server.corpus) && OutputWithin(start, end)
      ensures lastFetchError.Some? || requestsMade > old(requestsMade)
      ensures lastFetchError.Some? ==> CompletePrefix(server.corpus, start, end)
      ensures lastFetchError.None? ==>
                Tiles(rest, start, end) && CoversBefore(server.corpus, start, Frontier(rest, end))
      ensures StackEnd(server, pending, size, old(requestsMade)) ==
              if lastFetchError.Some? then (requestsMade, lastFetchError)
              else StackEnd(server, rest, size, requestsMade)
    {
      var (lo, hi) := pending[|pending| - 1];
      rest := pending[..|pending| - 1];
      TopOfStack(pending, start, end);
      var q := Window(lo, hi);
      var split := ReadQuery(server, q, size, hi - lo > MIN_WINDOW);
      if split {
        var midpoint := lo + (hi - lo) / 2;
        assert Halves(lo, hi) == [(midpoint, hi), (lo, midpoint)];
        rest := rest + [(midpoint, hi), (lo, midpoint)];
      } else if lastFetchError == None {
        ResultsComplete(server.corpus, q);
      }
    }

    /** Hand a fully read query over to coverage. */
    lemma {:induction false} ResultsComplete(corpus: seq<RawEvent>, q: Query)
      requires HoldsFirst(Results(corpus, q), |Results(corpus, q)|)
      ensures CoversQuery(corpus, q)
    {
      ResultsMembers(corpus, q);
      var results := Results(corpus, q);
      assert forall e :: e in results ==> exists i :: 0 <= i < |results| && results[i] == e;
    }

    /** The window stack, from the whole horizon down. */
    method ReadWindows(server: Server, size: nat, start: int, end: int)
      requires size >= 1 && start < end && UniqueIds(server.corpus) && Sound(server.corpus) && lastFetchError == None
      requires requestsMade == 0 && canonical == []
      modifies this`requestsMade, this`lastFetchError, this`asked, this`seenIds, this`canonical
      ensures Sound(server.corpus) && OutputWithin(start, end)
      ensures lastFetchError.Some? ==> CompletePrefix(server.corpus, start, end)
      ensures lastFetchError.None? ==> CoversBefore(server.corpus, start, end + 1)
      ensures (requestsMade, lastFetchError) == StackEnd(server, [(start, end)], size, 0)
    {
      var pending := [(start, end)];
      while pending != [] && lastFetchError == None
        invariant Sound(server.corpus) && OutputWithin(start, end)
        invariant lastFetchError.Some? ==> CompletePrefix(server.corpus, start, end)
        invariant lastFetchError.None? ==>
                    Tiles(pending, start, end) && CoversBefore(server.corpus, start, Frontier(pending, end))
        invariant StackEnd(server, [(start, end)], size, 0) ==
                  if lastFetchError.Some? then (requestsMade, lastFetchError)
                  else StackEnd(server, pending, size, requestsMade)
        decreases if lastFetchError.Some? then 0 else MAX_REQUESTS + 1 - requestsMade
      {
        pending := ReadWindow(server, pending, size, start, end);
      }
    }

    /** The undated passes: listings whose date is still to be announced, then those to be determined. */
    method ReadUndated(server: Server, size: nat, start: int, end: int)
      requires size >= 1 && UniqueIds(server.corpus) && Sound(server.corpus) && lastFetchError == None
      requires OutputWithin(start, end) && CoversBefore(server.corpus, start, end + 1)
      modifies this`requestsMade, this`lastFetchError, this`asked, this`seenIds, this`canonical
      ensures Sound(server.corpus) && OutputWithin(start, end) && CoversBefore(server.corpus, start, end + 1)
      ensures lastFetchError.Some? ==> CompletePrefix(server.corpus, start, end)
      ensures lastFetchError.None? ==> CoversQuery(server.corpus, OnlyTBA) && CoversQuery(server.corpus, OnlyTBD)
      ensures (requestsMade, lastFetchError) == UndatedEnd(server, size, old(requestsMade))
    {
      var split := ReadQuery(server, OnlyTBA, size, false);
      if lastFetchError.Some? {
        return;
      }
      ResultsComplete(server.corpus, OnlyTBA);
      split := ReadQuery(server, OnlyTBD, size, false);
      if lastFetchError == None {
        ResultsComplete(server.corpus, OnlyTBD);
      }
    }

    /** Everything the crawl reads once its arguments are accepted. */
    method Crawl(server: Server, size: nat, start: int, end: int)
      requires size >= 1 && start < end && UniqueIds(server.corpus) && Sound(server.corpus) && lastFetchError == None
      requires requestsMade == 0 && canonical == []
      modifies this`requestsMade, this`lastFetchError, this`asked, this`seenIds, this`canonical
      ensures Sound(server.corpus) && OutputWithin(start, end)
      ensures lastFetchError.Some? ==> CompletePrefix(server.corpus, start, end)
      ensures lastFetchError.None? ==> forall e :: e in server.corpus && e.mappable && InScope(e, start, end) ==>
                e in canonical
      ensures (requestsMade, lastFetchError) == CrawlEnd(server, size, start, end)
    {
      ReadWindows(server, size, start, end);
      if lastFetchError == None {
        ReadUndated(server, size, start, end);
      }
    }

    /**
     `fetch_events`. Without an error the output is everything mappable in the
     horizon and everything undated; with one, it is at least everything dated
     before the window being read. Ids are never repeated and the request budget
     is never exceeded.
     */
    method FetchEvents(server: Server, size: int, horizonDays: int, now: int, filtered: bool, startedAt: int)
      returns (r: Result<seq<RawEvent>, BadRequest>)
      requires UniqueIds(server.corpus)
      modifies this
      ensures r.Err? <==> size < 1 || horizonDays < 1
      ensures r.Err? ==> pendingSync == None && lastFetchError == None
      ensures r.Ok? ==> r.value == canonical && Sound(server.corpus)
      ensures r.Ok? ==> forall e :: e in r.value ==> InScope(e, now, now + horizonDays * MIN_WINDOW)
      ensures r.Ok? && lastFetchError.None? ==>
                forall e :: e in server.corpus && e.mappable && InScope(e, now, now + horizonDays * MIN_WINDOW) ==>
                  e in r.value
      ensures r.Ok? && lastFetchError.Some? ==> CompletePrefix(server.corpus, now, now + horizonDays * MIN_WINDOW)
      ensures r.Ok? ==> (requestsMade, lastFetchError) == FetchEnd(server, size, horizonDays, now)
      ensures r.Ok? && NothingFails(server) ==>
                var cost := CrawlCost(server, now, now + horizonDays * MIN_WINDOW, Min(size, 200));
                && (lastFetchError.None? <==> cost.Some? && cost.value <= 80)
                && (lastFetchError.None? ==> requestsMade == cost.value)
      ensures r.Ok? ==> pendingSync == if lastFetchError.None? && !filtered then Some(startedAt) else None
    {
      pendingSync, lastFetchError := None, None;
      requestsMade, seenIds, canonical, asked := 0, {}, [], [];
      if size < 1 || horizonDays < 1 {
        return Err(NotPositive);
      }
      var pageSize: nat := Min(size, MAX_PAGE_SIZE);
      var end := now + horizonDays * MIN_WINDOW;
      Crawl(server, pageSize, now, end);
      if NothingFails(server) {
        CrawlTakesItsCost(server, now, end, pageSize);
      }
      if lastFetchError == None && !filtered {
        pendingSync := Some(startedAt);
      }
      r := Ok(canonical);
    }

    /**
     `acknowledge_persisted`: offer the pending timestamp to the checkpoint file.
     Saving either replaces the file whole or raises and leaves it alone.
     */
    method AcknowledgePersisted(stored: Option<int>, saveFails: bool) returns (after: Option<int>, raised: bool)
      modifies this`pendingSync
      ensures var candidate := if lastFetchError.None? then old(pendingSync) else None;
              && raised == (candidate.Some? && saveFails)
              && after == (if candidate.Some? && !saveFails then candidate else stored)
              && pendingSync == (if candidate.Some? && !saveFails then None else old(pendingSync))
    {
      if pendingSync.None? || lastFetchError.Some? {
        return stored, false;
      }
      if saveFails {
        return stored, true;
      }
      after, raised := pendingSync, false;
      pendingSync := None;
    }
  }

  /** Dated inside the horizon, or without a date at all. */
  predicate InScope(e: RawEvent, start: int, end: int) {
    e.when.Dated? ==> start <= e.when.at <= end
  }

  /** The stack, top last, is a contiguous tiling of the rest of the horizon in ascending order. */
  ghost predicate Tiles(pending: seq<(int, int)>, start: int, end: int) {
    && (forall i :: 0 <= i < |pending| ==> start <= pending[i].0 < pending[i].1 <= end)
    && (pending != [] ==> pending[0].1 == end)
    && (forall i :: 0 < i < |pending| ==> pending[i].1 == pending[i - 1].0)
  }

  /** Taking the top window off, or cutting it in two, keeps the tiling; below the top it moves the frontier past it. */
  lemma {:induction false} TopOfStack(pending: seq<(int, int)>, start: int, end: int)
    requires pending != [] && Tiles(pending, start, end)
    ensures var (lo, hi) := pending[|pending| - 1];
      var rest := pending[..|pending| - 1];
      && start <= lo < hi <= end && Frontier(pending, end) == lo
      && Tiles(rest, start, end) && Frontier(rest, end) == (if rest == [] then end + 1 else hi)
      && (rest == [] ==> hi == end)
      && (hi - lo > MIN_WINDOW ==>
          Tiles(rest + Halves(lo, hi), start, end) && Frontier(rest + Halves(lo, hi), end) == lo)
  {
  }

  /** Everything before this instant has been read. */
  function Frontier(pending: seq<(int, int)>, end: int): int {
    if pending == [] then end + 1 else pending[|pending| - 1].0
  }

  lemma {:induction false} PageLimitPositive(size: nat)
    requires size >= 1
    ensures PagesNeeded(DEEP_PAGING_LIMIT, size) >= 1
  {
  }

  /** A page lists exactly the results between its start and the next one's. */
  lemma {:induction false} PageMembers(results: seq<RawEvent>, page: nat, size: nat)
    ensures forall e :: e in PageOf(results, page, size) ==> e in results
    ensures forall i :: PageStart(page, size) <= i < PageStart(page + 1, size) && i < |results| ==>
              results[i] in PageOf(results, page, size)
  {
    var lo := PageStart(page, size);
    assert PageStart(page + 1, size) == lo + size;
    forall i | lo <= i < lo + size && i < |results|
      ensures results[i] in PageOf(results, page, size)
    {
      assert PageOf(results, page, size)[i - lo] == results[i];
    }
  }
}
