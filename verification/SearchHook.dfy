/**
 The paginated search hook: a query, its state, and requests that answer late,
 fail, or are superseded.
 */
module SearchHook {
  import opened Prelude

  const PAGE_SIZE: nat := 20

  /** A query is its JSON key; an event, its id. */
  type Query = string

  datatype SearchState = SearchState(
    key: Query, events: seq<int>, nextOffset: nat, total: Option<nat>, hasMore: bool, loading: bool, error: bool)

  /** `open`: neither aborted nor settled. */
  datatype Request = Request(query: Query, offset: nat, open: bool)

  /**
   The rendered query, whether its effect is still to run, React's state, and the requests
   issued; `active` is the ref.
   */
  datatype Hook = Hook(query: Query, effectPending: bool, state: SearchState, requests: seq<Request>,
                       active: Option<nat>)

  /** The server: a fixed result list per query, and the total it reports, if any. */
  datatype Server = Server(results: Query -> seq<int>, total: Query -> Option<nat>) {

    /** Where a total is announced, the pages it calls for hold every result. */
    ghost predicate AnnouncesEnough() {
      forall q :: total(q).Some? ==> |results(q)| <= PAGE_SIZE * PagesFor(total(q).value)
    }

    function Page(q: Query, offset: nat): seq<int> {
      results(q)[Min(offset, |results(q)|)..Min(offset + PAGE_SIZE, |results(q)|)]
    }
  }

  /** The pages fetched until an announced total is reached; the first is fetched in any case. */
  function PagesFor(total: nat): nat {
    if total == 0 then 1 else (total + PAGE_SIZE - 1) / PAGE_SIZE
  }

  function Blank(key: Query): SearchState {
    SearchState(key, [], 0, None, false, true, false)
  }

  /** Mounted with a query: nothing fetched yet, the effect about to run. */
  function Mounted(query: Query): Hook {
    Hook(query, true, Blank(query), [], None)
  }

  /** What the caller sees: the state, unless it belongs to another query. */
  function Visible(h: Hook): SearchState {
    if h.state.key == h.query then h.state else Blank(h.query)
  }

  function Close(requests: seq<Request>, i: Option<nat>): seq<Request> {
    if i.Some? && i.value < |requests| then requests[i.value := requests[i.value].(open := false)] else requests
  }

  function Abort(h: Hook): Hook {
    h.(requests := Close(h.requests, h.active))
  }

  /** `fetchPage(offset)` for a query, up to its first await. */
  function FetchPage(h: Hook, query: Query, offset: nat): Hook {
    var requests := Close(h.requests, h.active);
    h.(requests := requests + [Request(query, offset, true)],
       active := Some(|requests|),
       state := if offset == 0 then Blank(query) else h.state.(key := query, loading := true, error := false))
  }

  function HasMore(total: Option<nat>, received: nat, nextOffset: nat): bool {
    match total
    case None => received == PAGE_SIZE
    case Some(t) => nextOffset < t
  }

  function Loaded(previous: SearchState, key: Query, offset: nat, page: seq<int>, total: Option<nat>): SearchState {
    SearchState(key, if offset == 0 then page else previous.events + page, offset + |page|, total,
                HasMore(total, |page|, offset + |page|), false, false)
  }

  datatype Action =
    | Rerender(query: Query)   // the caller renders with a query, new or not
    | RunEffect                // React runs the pending effect, cleanup first
    | LoadMore
    | Respond(request: nat)    // the server's answer to a request arrives
    | Fail(request: nat)
    | Unmount

  function Next(server: Server, h: Hook, action: Action): Hook {
    match action
    case Rerender(q) => h.(query := q, effectPending := true)
    case RunEffect => if h.effectPending then FetchPage(Abort(h), h.query, 0).(effectPending := false) else h
    case LoadMore => if Visible(h).loading then h else FetchPage(h, h.query, Visible(h).nextOffset)
    case Respond(i) =>
      if i >= |h.requests| || !h.requests[i].open then h else
        var r := h.requests[i];
        h.(requests := Close(h.requests, Some(i)),
           state := Loaded(h.state, r.query, r.offset, server.Page(r.query, r.offset), server.total(r.query)))
    case Fail(i) =>
      if i >= |h.requests| || !h.requests[i].open then h else
        h.(requests := Close(h.requests, Some(i)), state := h.state.(loading := false, error := true))
    case Unmount => Abort(h)
  }

  function After(server: Server, h: Hook, actions: seq<Action>): Hook {
    if actions == [] then h else Next(server, After(server, h, actions[..|actions| - 1]), actions[|actions| - 1])
  }

  /** The loaded events are the first `nextOffset` results of their query. */
  ghost predicate IsPrefix(server: Server, s: SearchState) {
    s.nextOffset <= |server.results(s.key)| && s.events == server.results(s.key)[..s.nextOffset]
  }

  /** Loading has ended without error and no more results are announced. */
  predicate Finished(s: SearchState) {
    !s.loading && !s.error && !s.hasMore
  }

  predicate Whole(server: Server, s: SearchState) {
    s.nextOffset == |server.results(s.key)|
  }

  /** A list that is not whole consists of full pages, and is finished only where a total says so. */
  predicate Paged(server: Server, s: SearchState) {
    Whole(server, s) ||
    (&& s.nextOffset % PAGE_SIZE == 0
     && (Finished(s) ==>
           var total := server.total(s.key); s.nextOffset > 0 && total.Some? && total.value <= s.nextOffset))
  }

  /** Only the active request can be open, and it asks for exactly what the state lacks. */
  ghost predicate OneOpen(h: Hook) {
    forall i :: 0 <= i < |h.requests| && h.requests[i].open ==>
      && h.active == Some(i) && h.state.loading
      && h.requests[i].query == h.state.key && h.requests[i].offset == h.state.nextOffset
  }

  ghost predicate Valid(server: Server, h: Hook) {
    IsPrefix(server, h.state) && Paged(server, h.state) && OneOpen(h)
  }

  lemma {:induction false} FetchKeepsValid(server: Server, h: Hook, offset: nat)
    requires Valid(server, h)
    requires offset == 0 || (h.state.key == h.query && offset == h.state.nextOffset)
    ensures Valid(server, FetchPage(h, h.query, offset))
  {
  }

  /** A page goes on where the list ends, and is full unless the results end with it. */
  lemma {:induction false} PageGoesOn(server: Server, query: Query, offset: nat)
    requires offset <= |server.results(query)|
    ensures var results, page := server.results(query), server.Page(query, offset);
            && offset + |page| <= |results| && results[..offset] + page == results[..offset + |page|]
            && (offset + |page| == |results| || |page| == PAGE_SIZE)
  {
  }

  lemma {:induction false} LoadedKeepsPrefix(server: Server, s: SearchState)
    requires IsPrefix(server, s) && Paged(server, s)
    ensures var loaded := Loaded(s, s.key, s.nextOffset, server.Page(s.key, s.nextOffset), server.total(s.key));
            IsPrefix(server, loaded) && Paged(server, loaded)
  {
    PageGoesOn(server, s.key, s.nextOffset);
  }

  lemma {:induction false} ResponseKeepsValid(server: Server, h: Hook, i: nat)
    requires Valid(server, h)
    ensures Valid(server, Next(server, h, Respond(i)))
  {
    if i < |h.requests| && h.requests[i].open {
      LoadedKeepsPrefix(server, h.state);
    }
  }

  lemma {:induction false} StepKeepsValid(server: Server, h: Hook, action: Action)
    requires Valid(server, h)
    ensures Valid(server, Next(server, h, action))
  {
    match action
    case RunEffect =>
      assert Valid(server, Abort(h));
      FetchKeepsValid(server, Abort(h), 0);
    case LoadMore =>
      if !Visible(h).loading { FetchKeepsValid(server, h, Visible(h).nextOffset); }
    case Respond(i) => ResponseKeepsValid(server, h, i);
    case _ =>
  }

  /**
   Under any interleaving and whatever total the server announces, the visible
   events are the first `nextOffset` results of the current query.
   */
  lemma {:induction false} VisibleIsAPrefix(server: Server, query: Query, actions: seq<Action>)
    ensures var h := After(server, Mounted(query), actions);
            Valid(server, h) && Visible(h).key == h.query && IsPrefix(server, Visible(h)) && Paged(server, Visible(h))
  {
    if actions != [] {
      VisibleIsAPrefix(server, query, actions[..|actions| - 1]);
      StepKeepsValid(server, After(server, Mounted(query), actions[..|actions| - 1]), actions[|actions| - 1]);
    }
  }

  /** A response to a superseded request changes nothing at all. */
  lemma {:induction false} SupersededIsIgnored(server: Server, query: Query, actions: seq<Action>, i: nat)
    ensures var h := After(server, Mounted(query), actions);
            h.active != Some(i) ==> Next(server, h, Respond(i)) == h && Next(server, h, Fail(i)) == h
  {
    VisibleIsAPrefix(server, query, actions);
  }

  // ---------- loading always ends ----------

  /** A request is under way, its answer not yet in. */
  predicate UnderWay(h: Hook) {
    h.active.Some? && h.active.value < |h.requests| && h.requests[h.active.value].open
  }

  ghost predicate StaysMounted(actions: seq<Action>) {
    forall i :: 0 <= i < |actions| ==> !actions[i].Unmount?
  }

  /** As long as the hook is mounted, it says "loading" only while a request is under way or about to be. */
  lemma {:induction false} LoadingIsUnderWay(server: Server, query: Query, actions: seq<Action>)
    requires StaysMounted(actions)
    ensures var h := After(server, Mounted(query), actions);
            h.state.loading ==> h.effectPending || UnderWay(h)
    ensures var h := After(server, Mounted(query), actions);
            h.state.key != h.query ==> h.effectPending
  {
    if actions != [] {
      var init := actions[..|actions| - 1];
      assert forall i :: 0 <= i < |init| ==> init[i] == actions[i];
      LoadingIsUnderWay(server, query, init);
      VisibleIsAPrefix(server, query, init);
    }
  }

  /**
   The answer to the request under way ends loading, with its page; its failure ends
   loading too, says so, and keeps what was shown. Either way, more can be asked for,
   and is asked for from where the list ends.
   */
  lemma {:induction false} AnswerEndsLoading(server: Server, query: Query, actions: seq<Action>)
    requires UnderWay(After(server, Mounted(query), actions))
    ensures var h := After(server, Mounted(query), actions);
            var answered, failed := Next(server, h, Respond(h.active.value)), Next(server, h, Fail(h.active.value));
            && !answered.state.loading && !answered.state.error && !failed.state.loading && failed.state.error
            && |answered.state.events| == |h.state.events| + |server.Page(h.state.key, h.state.nextOffset)|
            && failed.state.events == h.state.events && answered.state.total == server.total(h.state.key)
            && (h.state.key == h.query ==> Next(server, h, LoadMore) == h)
    ensures var h := After(server, Mounted(query), actions);
            var failed := Next(server, h, Fail(h.active.value));
            h.state.key == h.query ==>
              var again := Next(server, failed, LoadMore);
              UnderWay(again) && again.state.loading && again.requests[again.active.value].offset == h.state.nextOffset
  {
    VisibleIsAPrefix(server, query, actions);
  }

  // ---------- when a finished list is the whole list ----------

  predicate FinishesWhole(server: Server, query: Query, actions: seq<Action>) {
    var s := Visible(After(server, Mounted(query), actions));
    Finished(s) ==> Whole(server, s)
  }

  /** Full pages that reach a total include every page it calls for. */
  lemma {:induction false} PagesReach(total: nat, offset: nat)
    requires offset > 0 && offset % PAGE_SIZE == 0 && total <= offset
    ensures PAGE_SIZE * PagesFor(total) <= offset
  {
    var pages := offset / PAGE_SIZE;
    assert offset == PAGE_SIZE * pages;
  }

  /** Mount, and load page after page. */
  function Visit(pages: nat): seq<Action> {
    if pages == 0 then []
    else if pages == 1 then [RunEffect, Respond(0)]
    else Visit(pages - 1) + [LoadMore, Respond(pages - 1)]
  }

  lemma {:induction false} AfterTwo(server: Server, h: Hook, actions: seq<Action>, a: Action, b: Action)
    ensures After(server, h, actions + [a, b]) == Next(server, Next(server, After(server, h, actions), a), b)
  {
    var all := actions + [a, b];
    assert all[..|all| - 1] == actions + [a] && (actions + [a])[..|actions|] == actions;
  }

  /** The hook has settled after this many full pages. */
  predicate SettledAfter(server: Server, h: Hook, query: Query, pages: nat) {
    && h.query == query && !h.effectPending && |h.requests| == pages
    && h.state.key == query && h.state.nextOffset == PAGE_SIZE * pages && !h.state.loading && !h.state.error
    && h.state.hasMore == HasMore(server.total(query), PAGE_SIZE, PAGE_SIZE * pages)
  }

  lemma {:induction false} VisitSettles(server: Server, query: Query, pages: nat)
    requires pages >= 1 && PAGE_SIZE * pages <= |server.results(query)|
    ensures SettledAfter(server, After(server, Mounted(query), Visit(pages)), query, pages)
  {
    if pages == 1 {
      FirstPageSettles(server, query);
    } else {
      VisitSettles(server, query, pages - 1);
      AfterTwo(server, Mounted(query), Visit(pages - 1), LoadMore, Respond(pages - 1));
      LoadMoreSettles(server, After(server, Mounted(query), Visit(pages - 1)), query, pages - 1);
    }
  }

  lemma {:induction false} FirstPageSettles(server: Server, query: Query)
    requires PAGE_SIZE <= |server.results(query)|
    ensures SettledAfter(server, After(server, Mounted(query), Visit(1)), query, 1)
  {
    assert [] + [RunEffect, Respond(0)] == Visit(1);
    AfterTwo(server, Mounted(query), [], RunEffect, Respond(0));
    var asked := Next(server, Mounted(query), RunEffect);
    assert asked.requests == [Request(query, 0, true)];
    assert |server.Page(query, 0)| == PAGE_SIZE;
  }

  lemma {:induction false} LoadMoreSettles(server: Server, h: Hook, query: Query, pages: nat)
    requires pages >= 1 && SettledAfter(server, h, query, pages)
    requires PAGE_SIZE * (pages + 1) <= |server.results(query)|
    ensures SettledAfter(server, Next(server, Next(server, h, LoadMore), Respond(pages)), query, pages + 1)
  {
    var asked := Next(server, h, LoadMore);
    assert asked.requests[pages] == Request(query, PAGE_SIZE * pages, true);
    assert |server.Page(query, PAGE_SIZE * pages)| == PAGE_SIZE;
  }

  /**
   A list that looks finished is the whole result, under every interleaving and for
   every query, exactly when no announced total ends the paging before the results
   do.
   */
  lemma {:induction false} FinishedIsWholeExactly(server: Server)
    ensures (forall query, actions :: FinishesWhole(server, query, actions)) <==> server.AnnouncesEnough()
  {
    if server.AnnouncesEnough() {
      forall query, actions
        ensures FinishesWhole(server, query, actions)
      {
        VisibleIsAPrefix(server, query, actions);
        var s := Visible(After(server, Mounted(query), actions));
        if Finished(s) && !Whole(server, s) {
          PagesReach(server.total(s.key).value, s.nextOffset);
        }
      }
    } else {
      var query :| server.total(query).Some?
          && |server.results(query)| > PAGE_SIZE * PagesFor(server.total(query).value);
      var pages := PagesFor(server.total(query).value);
      VisitSettles(server, query, pages);
      assert !FinishesWhole(server, query, Visit(pages));
    }
  }
}
