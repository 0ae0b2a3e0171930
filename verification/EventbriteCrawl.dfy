/**
 The Eventbrite crawl: a handful of browse slices read page by page, events
 listed in several slices merged into one.
 */
module EventbriteCrawl {
  import opened Prelude
  import opened Lists
  import opened Sorting

  datatype Candidate = Candidate(url: string, facts: string)

  /** A listing page: its candidates and the page count it reports, if it has one. */
  datatype Listing = Html(candidates: seq<Candidate>, pageCount: Option<nat>) | HttpError

  /** What the site answers, by slice and page number; pages count from 1. */
  type Site = (string, nat) -> Listing

  datatype Slice = Slice(slug: string, category: Option<string>)

  datatype Event = Event(candidate: Candidate, categories: seq<string>)

  /** One candidate met on one page, with the category its slice stands for. */
  datatype Visit = Visit(candidate: Candidate, category: Option<string>)

  const MAX_PAGES_PER_SLICE: nat := 5
  const MAX_REQUESTS: nat := 25

  // ---------- what merging a series of visits means ----------

  function UrlOf(): Visit -> string {
    (v: Visit) => v.candidate.url
  }

  function CategoryAt(url: string): Visit -> Option<string> {
    (v: Visit) => if v.candidate.url == url then v.category else None
  }

  /** The categories of the visits to a url, once each, in order. */
  function CategoriesOf(visits: seq<Visit>, url: string): seq<string> {
    Dedupe(FilterMap(visits, CategoryAt(url)))
  }

  function Urls(visits: seq<Visit>): set<string> {
    set v | v in visits :: v.candidate.url
  }

  predicate Visited(visits: seq<Visit>, url: string) {
    url in Urls(visits)
  }

  /** The first candidate met for a url. */
  function FirstOf(visits: seq<Visit>, url: string): (c: Candidate)
    requires Visited(visits, url)
    ensures c.url == url
  {
    var init := visits[..|visits| - 1];
    if Visited(init, url) then FirstOf(init, url) else
      assert visits == init + [visits[|visits| - 1]];
      visits[|visits| - 1].candidate
  }

  function EventAt(visits: seq<Visit>, url: string): Event
    requires Visited(visits, url)
  {
    Event(FirstOf(visits, url), CategoriesOf(visits, url))
  }

  /** `merged`, an insertion-ordered dictionary. */
  datatype Merged = Merged(order: seq<string>, events: map<string, Event>)

  ghost predicate MergedFrom(m: Merged, visits: seq<Visit>) {
    && m.order == Dedupe(Mapped(visits, UrlOf()))
    && (forall u :: u in m.events <==> Visited(visits, u))
    && (forall u :: u in m.events ==> m.events[u] == EventAt(visits, u))
  }

  /** `setdefault`, then the category if it is new. */
  function Added(m: Merged, visit: Visit): Merged {
    var url := visit.candidate.url;
    var before := if url in m.events then m.events[url] else Event(visit.candidate, []);
    var categories :=
      if visit.category.Some? && visit.category.value !in before.categories
      then before.categories + [visit.category.value] else before.categories;
    Merged(if url in m.events then m.order else m.order + [url], m.events[url := before.(categories := categories)])
  }

  /** The dictionary after a series of visits. */
  function MergeOf(visits: seq<Visit>): Merged {
    if visits == [] then Merged([], map[]) else Added(MergeOf(visits[..|visits| - 1]), visits[|visits| - 1])
  }

  lemma {:induction false} AddKeepsMerged(m: Merged, visits: seq<Visit>, visit: Visit, url: string)
    requires MergedFrom(m, visits)
    ensures Visited(visits + [visit], url) <==> Visited(visits, url) || url == visit.candidate.url
    ensures Visited(visits + [visit], url) ==>
      && FirstOf(visits + [visit], url) == (if url in m.events then m.events[url].candidate else visit.candidate)
      && CategoriesOf(visits + [visit], url) ==
         var before := if url in m.events then m.events[url].categories else [];
         if url == visit.candidate.url && visit.category.Some? && visit.category.value !in before
         then before + [visit.category.value] else before
  {
    assert (visits + [visit])[..|visits|] == visits;
    if url == visit.candidate.url {
      assert visit in visits + [visit];
    }
    CategoriesAppend(visits, visit, url);
    NothingBeforeFirst(visits, url);
  }

  lemma {:induction false} NothingBeforeFirst(visits: seq<Visit>, url: string)
    ensures !Visited(visits, url) ==> CategoriesOf(visits, url) == []
  {
    FilterMapMembers(visits, CategoryAt(url));
    var found := FilterMap(visits, CategoryAt(url));
    assert found != [] ==> found[0] in found;
    DedupeSpec(found);
  }

  lemma {:induction false} OrderGrows(m: Merged, visits: seq<Visit>, visit: Visit)
    requires MergedFrom(m, visits)
    ensures Dedupe(Mapped(visits + [visit], UrlOf())) ==
      if visit.candidate.url in m.events then m.order else m.order + [visit.candidate.url]
  {
    var urls := Mapped(visits, UrlOf());
    assert Mapped(visits + [visit], UrlOf()) == urls + [visit.candidate.url];
    DedupeAppend(urls, visit.candidate.url);
    forall u
      ensures u in urls <==> Visited(visits, u)
    {
      if u in urls {
        var i :| 0 <= i < |urls| && urls[i] == u;
        assert visits[i] in visits;
      }
      if Visited(visits, u) {
        var v :| v in visits && v.candidate.url == u;
        var i :| 0 <= i < |visits| && visits[i] == v;
        assert urls[i] == u;
      }
    }
  }

  /** Merging keeps, per url, the first candidate met and the categories of all its visits in order. */
  lemma {:induction false} MergeOfSpec(visits: seq<Visit>)
    ensures MergedFrom(MergeOf(visits), visits)
  {
    if visits != [] {
      var init, visit := visits[..|visits| - 1], visits[|visits| - 1];
      assert visits == init + [visit];
      MergeOfSpec(init);
      OrderGrows(MergeOf(init), init, visit);
      forall u
        ensures u in MergeOf(visits).events <==> Visited(visits, u)
        ensures u in MergeOf(visits).events ==> MergeOf(visits).events[u] == EventAt(visits, u)
      {
        AddKeepsMerged(MergeOf(init), init, visit, u);
      }
    }
  }

  lemma {:induction false} MergeOfAppend(visits: seq<Visit>, visit: Visit)
    ensures MergeOf(visits + [visit]) == Added(MergeOf(visits), visit)
  {
    assert (visits + [visit])[..|visits|] == visits;
  }

  /** One candidate of a page. */
  method AddCandidate(m: Merged, candidate: Candidate, category: Option<string>) returns (m': Merged)
    ensures m' == Added(m, Visit(candidate, category))
  {
    var url := candidate.url;
    m' := m;
    if url !in m.events {
      m' := Merged(m.order + [url], m.events[url := Event(candidate, [])]);
    }
    var event := m'.events[url];
    if category.Some? && category.value !in event.categories {
      m' := m'.(events := m'.events[url := event.(categories := event.categories + [category.value])]);
    }
    assert m'.events == Added(m, Visit(candidate, category)).events;
  }

  // ---------- what reading a slice means ----------

  /** `all`, then one visit per candidate of a page. */
  function AfterListing(all: seq<Visit>, candidates: seq<Candidate>, category: Option<string>): seq<Visit> {
    if candidates == [] then all else
      AfterListing(all, candidates[..|candidates| - 1], category) + [Visit(candidates[|candidates| - 1], category)]
  }

  function AfterPage(all: seq<Visit>, site: Site, slice: Slice, page: nat): seq<Visit> {
    match site(slice.slug, page)
    case HttpError => all
    case Html(candidates, _) => AfterListing(all, candidates, slice.category)
  }

  /** `all`, then the visits of pages 1 to `n` of a slice. */
  function AfterPages(all: seq<Visit>, site: Site, slice: Slice, n: nat): seq<Visit> {
    if n == 0 then all else AfterPage(AfterPages(all, site, slice, n - 1), site, slice, n)
  }

  /** The dictionary after one more page. */
  function MergePage(m: Merged, site: Site, slice: Slice, page: nat): Merged {
    match site(slice.slug, page)
    case HttpError => m
    case Html(candidates, _) => MergeListing(m, candidates, slice.category)
  }

  function MergeListing(m: Merged, candidates: seq<Candidate>, category: Option<string>): Merged {
    if candidates == [] then m else
      Added(MergeListing(m, candidates[..|candidates| - 1], category), Visit(candidates[|candidates| - 1], category))
  }

  /** The dictionary after pages 1 to `n` of a slice. */
  function MergePages(m: Merged, site: Site, slice: Slice, n: nat): Merged {
    if n == 0 then m else MergePage(MergePages(m, site, slice, n - 1), site, slice, n)
  }

  lemma {:induction false} MergeListingSpec(all: seq<Visit>, candidates: seq<Candidate>, category: Option<string>)
    ensures MergeListing(MergeOf(all), candidates, category) == MergeOf(AfterListing(all, candidates, category))
  {
    if candidates != [] {
      var init := candidates[..|candidates| - 1];
      MergeListingSpec(all, init, category);
      MergeOfAppend(AfterListing(all, init, category), Visit(candidates[|candidates| - 1], category));
    }
  }

  lemma {:induction false} MergePageSpec(all: seq<Visit>, site: Site, slice: Slice, page: nat)
    ensures MergePage(MergeOf(all), site, slice, page) == MergeOf(AfterPage(all, site, slice, page))
  {
    var listing := site(slice.slug, page);
    if listing.Html? {
      MergeListingSpec(all, listing.candidates, slice.category);
    }
  }

  lemma {:induction false} MergePagesSpec(all: seq<Visit>, site: Site, slice: Slice, n: nat)
    ensures MergePages(MergeOf(all), site, slice, n) == MergeOf(AfterPages(all, site, slice, n))
  {
    if n > 0 {
      var before := AfterPages(all, site, slice, n - 1);
      MergePagesSpec(all, site, slice, n - 1);
      MergePageSpec(before, site, slice, n);
      assert AfterPages(all, site, slice, n) == AfterPage(before, site, slice, n);
      assert MergePages(MergeOf(all), site, slice, n) == MergePage(MergeOf(before), site, slice, n);
    }
  }

  function UrlsIn(candidates: seq<Candidate>): set<string> {
    if candidates == [] then {} else UrlsIn(candidates[..|candidates| - 1]) + {candidates[|candidates| - 1].url}
  }

  predicate AnyNew(candidates: seq<Candidate>, seen: set<string>) {
    candidates != [] && (AnyNew(candidates[..|candidates| - 1], seen) || candidates[|candidates| - 1].url !in seen)
  }

  function UrlsOn(site: Site, slice: Slice, page: nat): set<string> {
    match site(slice.slug, page)
    case HttpError => {}
    case Html(candidates, _) => UrlsIn(candidates)
  }

  /** The urls of pages 1 to `n` of a slice. */
  function UrlsThrough(site: Site, slice: Slice, n: nat): set<string> {
    if n == 0 then {} else UrlsThrough(site, slice, n - 1) + UrlsOn(site, slice, n)
  }

  /** The page lists a url that no earlier page of its slice lists. */
  predicate AddsSome(site: Site, slice: Slice, page: nat)
    requires page > 0
  {
    match site(slice.slug, page)
    case HttpError => false
    case Html(candidates, _) => AnyNew(candidates, UrlsThrough(site, slice, page - 1))
  }

  datatype Ending = Complete | NoPageCount | Repeated | Capped | Failed

  /** Why reading stops at a page, if it does. */
  function PageEnding(site: Site, slice: Slice, page: nat): Option<Ending>
    requires page > 0
  {
    match site(slice.slug, page)
    case HttpError => Some(Failed)
    case Html(_, None) => Some(NoPageCount)
    case Html(_, Some(count)) =>
      if page >= count then Some(Complete)
      else if !AddsSome(site, slice, page) then Some(Repeated)
      else None
  }

  /** How many pages of a slice were read, and why reading stopped. */
  datatype Report = Report(pages: nat, ending: Ending) {
    function Requests(): nat {
      if ending.Failed? then pages + 1 else pages
    }
  }

  function ReportOf(page: nat, ending: Ending): Report
    requires page > 0
  {
    Report(if ending.Failed? then page - 1 else page, ending)
  }

  /** Pages 1 to `n` were read and each called for the next. */
  predicate GoesOn(site: Site, slice: Slice, n: nat) {
    n == 0 || (GoesOn(site, slice, n - 1) && PageEnding(site, slice, n) == None)
  }

  /** The only way a slice is read with `left` requests to spend. */
  predicate SliceRead(site: Site, slice: Slice, left: nat, report: Report) {
    var n := report.pages;
    && n <= MAX_PAGES_PER_SLICE && report.Requests() <= left
    && match report.ending
       case Capped => GoesOn(site, slice, n) && (n == MAX_PAGES_PER_SLICE || n == left)
       case Failed => n < MAX_PAGES_PER_SLICE && GoesOn(site, slice, n)
           && PageEnding(site, slice, n + 1) == Some(Failed)
       case reason => n > 0 && GoesOn(site, slice, n - 1) && PageEnding(site, slice, n) == Some(reason)
  }

  /** One page: every candidate is merged; `added` counts those new to the slice. */
  method ReadListing(candidates: seq<Candidate>, category: Option<string>, m: Merged, sliceUrls: set<string>)
    returns (m': Merged, sliceUrls': set<string>, added: nat)
    ensures m' == MergeListing(m, candidates, category)
    ensures sliceUrls' == sliceUrls + UrlsIn(candidates)
    ensures added > 0 <==> AnyNew(candidates, sliceUrls)
  {
    m', sliceUrls', added := m, sliceUrls, 0;
    for i := 0 to |candidates|
      invariant m' == MergeListing(m, candidates[..i], category)
      invariant sliceUrls' == sliceUrls + UrlsIn(candidates[..i])
      invariant added > 0 <==> AnyNew(candidates[..i], sliceUrls)
      invariant added == 0 ==> sliceUrls' == sliceUrls
    {
      var url := candidates[i].url;
      if url !in sliceUrls' {
        sliceUrls' := sliceUrls' + {url};
        added := added + 1;
      }
      assert candidates[..i + 1][..i] == candidates[..i];
      m' := AddCandidate(m', candidates[i], category);
    }
    assert candidates[..|candidates|] == candidates;
  }

  /** One pass of the inner loop. */
  method ReadPage(site: Site, slice: Slice, page: nat, m: Merged, sliceUrls: set<string>, ghost before: Merged)
    returns (m': Merged, sliceUrls': set<string>, ending: Option<Ending>)
    requires page > 0 && sliceUrls == UrlsThrough(site, slice, page - 1)
    requires m == MergePages(before, site, slice, page - 1)
    ensures ending == PageEnding(site, slice, page)
    ensures m' == MergePages(before, site, slice, page)
    ensures ending == Some(Failed) ==> m' == MergePages(before, site, slice, page - 1)
    ensures sliceUrls' == UrlsThrough(site, slice, page)
  {
    var html := site(slice.slug, page);
    if html.HttpError? {
      return m, sliceUrls, Some(Failed);
    }
    var added: nat;
    m', sliceUrls', added := ReadListing(html.candidates, slice.category, m, sliceUrls);
    if html.pageCount.None? {
      ending := Some(NoPageCount);
    } else if page >= html.pageCount.value {
      ending := Some(Complete);
    } else {
      ending := if added == 0 then Some(Repeated) else None;
    }
  }

  lemma {:induction false} EndingReads(site: Site, slice: Slice, left: nat, page: nat)
    requires 1 <= page <= MAX_PAGES_PER_SLICE && page <= left
    requires GoesOn(site, slice, page - 1) && PageEnding(site, slice, page).Some?
    ensures SliceRead(site, slice, left, ReportOf(page, PageEnding(site, slice, page).value))
  {
  }

  /** The inner loop: pages of one slice until it ends, stalls, or something runs out. */
  method ReadSlice(site: Site, slice: Slice, m: Merged, requests: nat)
    returns (m': Merged, requests': nat, report: Report)
    requires requests <= MAX_REQUESTS
    ensures SliceRead(site, slice, MAX_REQUESTS - requests, report)
    ensures requests' == requests + report.Requests() <= MAX_REQUESTS
    ensures m' == MergePages(m, site, slice, report.pages)
  {
    m', requests' := m, requests;
    var sliceUrls: set<string> := {};
    var page := 1;
    while page <= MAX_PAGES_PER_SLICE && requests' < MAX_REQUESTS
      invariant 1 <= page <= MAX_PAGES_PER_SLICE + 1
      invariant requests' == requests + page - 1 <= MAX_REQUESTS
      invariant GoesOn(site, slice, page - 1)
      invariant sliceUrls == UrlsThrough(site, slice, page - 1)
      invariant m' == MergePages(m, site, slice, page - 1)
    {
      requests' := requests' + 1;
      var ending: Option<Ending>;
      m', sliceUrls, ending := ReadPage(site, slice, page, m', sliceUrls, m);
      if ending.Some? {
        EndingReads(site, slice, MAX_REQUESTS - requests, page);
        report := ReportOf(page, ending.value);
        return;
      }
      page := page + 1;
    }
    report := Report(page - 1, Capped);
  }

  // ---------- the whole crawl ----------

  function Spent(reports: seq<Report>): nat {
    if reports == [] then 0 else Spent(reports[..|reports| - 1]) + reports[|reports| - 1].Requests()
  }

  /** The last thing that went wrong with a slice. */
  function Trouble(reports: seq<Report>): Option<Ending> {
    if reports == [] then None
    else if !reports[|reports| - 1].ending.Complete? then Some(reports[|reports| - 1].ending)
    else Trouble(reports[..|reports| - 1])
  }

  /** Slices read in order on one budget; only the last of them may have failed. */
  predicate CrawlRead(site: Site, slices: seq<Slice>, reports: seq<Report>)
    requires |reports| <= |slices|
  {
    reports == [] ||
    var init, last := reports[..|reports| - 1], reports[|reports| - 1];
    && CrawlRead(site, slices, init)
    && (init != [] ==> !init[|init| - 1].ending.Failed?)
    && Spent(init) <= MAX_REQUESTS
    && SliceRead(site, slices[|init|], MAX_REQUESTS - Spent(init), last)
  }

  function MergeCrawl(site: Site, slices: seq<Slice>, reports: seq<Report>): Merged
    requires |reports| <= |slices|
  {
    if reports == [] then Merged([], map[]) else
      var init := reports[..|reports| - 1];
      MergePages(MergeCrawl(site, slices, init), site, slices[|init|], reports[|reports| - 1].pages)
  }

  function CrawlVisits(site: Site, slices: seq<Slice>, reports: seq<Report>): seq<Visit>
    requires |reports| <= |slices|
  {
    if reports == [] then [] else
      var init := reports[..|reports| - 1];
      AfterPages(CrawlVisits(site, slices, init), site, slices[|init|], reports[|reports| - 1].pages)
  }

  lemma {:induction false} MergeCrawlSpec(site: Site, slices: seq<Slice>, reports: seq<Report>)
    requires |reports| <= |slices|
    ensures MergeCrawl(site, slices, reports) == MergeOf(CrawlVisits(site, slices, reports))
  {
    if reports != [] {
      var init := reports[..|reports| - 1];
      MergeCrawlSpec(site, slices, init);
      MergePagesSpec(CrawlVisits(site, slices, init), site, slices[|init|], reports[|reports| - 1].pages);
    }
  }

  predicate Whole(m: Merged) {
    forall u :: u in m.order ==> u in m.events
  }

  /** `list(merged.values())` */
  function Values(m: Merged): seq<Event>
    requires Whole(m)
  {
    seq(|m.order|, i requires 0 <= i < |m.order| => m.events[m.order[i]])
  }

  lemma {:induction false} MergeCrawlIsWhole(site: Site, slices: seq<Slice>, reports: seq<Report>)
    requires |reports| <= |slices|
    ensures Whole(MergeCrawl(site, slices, reports))
  {
    var visits := CrawlVisits(site, slices, reports);
    MergeCrawlSpec(site, slices, reports);
    MergeOfSpec(visits);
    MergedIsWhole(MergeOf(visits), visits);
  }

  lemma {:induction false} MergedIsWhole(m: Merged, visits: seq<Visit>)
    requires MergedFrom(m, visits)
    ensures forall u :: u in m.order <==> u in m.events
  {
    var urls := Mapped(visits, UrlOf());
    DedupeSpec(urls);
    forall u
      ensures u in urls <==> u in Urls(visits)
    {
      if u in urls {
        var i :| 0 <= i < |urls| && urls[i] == u;
        assert visits[i] in visits;
      }
      if u in Urls(visits) {
        var v :| v in visits && v.candidate.url == u;
        var i :| 0 <= i < |visits| && visits[i] == v;
        assert urls[i] == u;
      }
    }
  }

  /** The crawl so far: its reports, its dictionary, and the requests and errors they account for. */
  predicate Progress(site: Site, slices: seq<Slice>, reports: seq<Report>, m: Merged, requests: nat,
                     trouble: Option<Ending>) {
    && |reports| <= |slices| && CrawlRead(site, slices, reports)
    && requests == Spent(reports) <= MAX_REQUESTS
    && m == MergeCrawl(site, slices, reports) && Whole(m)
    && trouble == Trouble(reports)
  }

  predicate Ongoing(reports: seq<Report>) {
    reports != [] ==> !reports[|reports| - 1].ending.Failed?
  }

  lemma {:induction false} OneMoreReport(site: Site, slices: seq<Slice>, reports: seq<Report>, m: Merged, requests: nat,
                                         trouble: Option<Ending>, report: Report)
    requires Progress(site, slices, reports, m, requests, trouble) && Ongoing(reports) && |reports| < |slices|
    requires SliceRead(site, slices[|reports|], MAX_REQUESTS - requests, report)
    ensures Progress(site, slices, reports + [report], MergePages(m, site, slices[|reports|], report.pages),
                     requests + report.Requests(), if report.ending.Complete? then trouble else Some(report.ending))
  {
    CrawlReadGrows(site, slices, reports, report);
    MergeCrawlGrows(site, slices, reports, report);
    MergeCrawlIsWhole(site, slices, reports + [report]);
    CountsGrow(reports, report);
    assert requests + report.Requests() <= MAX_REQUESTS;
  }

  lemma {:induction false} CountsGrow(reports: seq<Report>, report: Report)
    ensures Spent(reports + [report]) == Spent(reports) + report.Requests()
    ensures Trouble(reports + [report]) == if report.ending.Complete? then Trouble(reports) else Some(report.ending)
  {
    assert (reports + [report])[..|reports|] == reports;
  }

  lemma {:induction false} CrawlReadGrows(site: Site, slices: seq<Slice>, reports: seq<Report>, report: Report)
    requires |reports| < |slices| && CrawlRead(site, slices, reports) && Ongoing(reports)
    requires Spent(reports) <= MAX_REQUESTS && SliceRead(site, slices[|reports|], MAX_REQUESTS - Spent(reports), report)
    ensures CrawlRead(site, slices, reports + [report])
  {
    assert (reports + [report])[..|reports|] == reports;
  }

  lemma {:induction false} MergeCrawlGrows(site: Site, slices: seq<Slice>, reports: seq<Report>, report: Report)
    requires |reports| < |slices|
    ensures MergeCrawl(site, slices, reports + [report])
         == MergePages(MergeCrawl(site, slices, reports), site, slices[|reports|], report.pages)
  {
    assert (reports + [report])[..|reports|] == reports;
  }

  class EventbriteSource {
    var lastFetchError: Option<Ending>

    constructor ()
      ensures lastFetchError == None
    {
      lastFetchError := None;
    }

    /**
     `_crawl_listing_slices`. The budget holds whatever the site answers; the
     error field tells exactly whether some slice was not read to its end.
     */
    method CrawlListingSlices(site: Site, slices: seq<Slice>)
      returns (events: seq<Event>, raised: bool, ghost reports: seq<Report>, ghost m: Merged, ghost requests: nat)
      requires lastFetchError == None
      modifies this
      ensures Progress(site, slices, reports, m, requests, if raised then Some(Failed) else lastFetchError)
      ensures |reports| == |slices| || !Ongoing(reports)
      ensures raised <==> !Ongoing(reports) && m.order == []
      ensures events == Values(m)
    {
      var merged, made := Merged([], map[]), 0;
      reports := [];
      for i := 0 to |slices|
        invariant |reports| == i && Ongoing(reports)
        invariant Progress(site, slices, reports, merged, made, lastFetchError)
      {
        var merged', made', report := ReadSlice(site, slices[i], merged, made);
        OneMoreReport(site, slices, reports, merged, made, lastFetchError, report);
        merged, made := merged', made';
        reports := reports + [report];
        if report.ending.Failed? {
          if merged.order != [] {
            lastFetchError := Some(Failed);
          }
          return Values(merged), merged.order == [], reports, merged, made;
        }
        if !report.ending.Complete? {
          lastFetchError := Some(report.ending);
        }
      }
      return Values(merged), false, reports, merged, made;
    }
  }

  // ---------- what the ending of a slice says about the site ----------

  /** Some page of the slice before this one lists the url. */
  ghost predicate ListedBefore(site: Site, slice: Slice, page: nat, url: string) {
    exists earlier: nat, c: Candidate ::
      && 1 <= earlier < page && site(slice.slug, earlier).Html?
      && c in site(slice.slug, earlier).candidates && c.url == url
  }

  /** The page lists an event that no earlier page of the slice lists. */
  ghost predicate ListsSomethingNew(site: Site, slice: Slice, page: nat) {
    && site(slice.slug, page).Html?
    && exists c :: c in site(slice.slug, page).candidates && !ListedBefore(site, slice, page, c.url)
  }

  /** The page calls for the next: it says there are more, and lists something new. */
  ghost predicate CallsForMore(site: Site, slice: Slice, page: nat) {
    && site(slice.slug, page).Html? && site(slice.slug, page).pageCount.Some?
    && page < site(slice.slug, page).pageCount.value && ListsSomethingNew(site, slice, page)
  }

  lemma {:induction false} UrlsInMembers(candidates: seq<Candidate>, url: string)
    ensures url in UrlsIn(candidates) <==> exists c :: c in candidates && c.url == url
  {
    if candidates != [] {
      assert candidates == candidates[..|candidates| - 1] + [candidates[|candidates| - 1]];
      UrlsInMembers(candidates[..|candidates| - 1], url);
    }
  }

  lemma {:induction false} UrlsThroughMembers(site: Site, slice: Slice, n: nat, url: string)
    ensures url in UrlsThrough(site, slice, n) <==> ListedBefore(site, slice, n + 1, url)
  {
    if n > 0 {
      UrlsThroughMembers(site, slice, n - 1, url);
      if site(slice.slug, n).Html? { UrlsInMembers(site(slice.slug, n).candidates, url); }
    }
  }

  lemma {:induction false} AnyNewMembers(candidates: seq<Candidate>, seen: set<string>)
    ensures AnyNew(candidates, seen) <==> exists c :: c in candidates && c.url !in seen
  {
    if candidates != [] {
      assert candidates == candidates[..|candidates| - 1] + [candidates[|candidates| - 1]];
      AnyNewMembers(candidates[..|candidates| - 1], seen);
    }
  }

  lemma {:induction false} AddsSomeExactly(site: Site, slice: Slice, page: nat)
    requires page > 0
    ensures AddsSome(site, slice, page) <==> ListsSomethingNew(site, slice, page)
  {
    if site(slice.slug, page).Html? {
      var candidates := site(slice.slug, page).candidates;
      AnyNewMembers(candidates, UrlsThrough(site, slice, page - 1));
      forall c | c in candidates
        ensures c.url in UrlsThrough(site, slice, page - 1) <==> ListedBefore(site, slice, page, c.url)
      {
        UrlsThroughMembers(site, slice, page - 1, c.url);
      }
    }
  }

  lemma {:induction false} CallsForMoreExactly(site: Site, slice: Slice, page: nat)
    requires page > 0
    ensures PageEnding(site, slice, page) == None <==> CallsForMore(site, slice, page)
  {
    AddsSomeExactly(site, slice, page);
  }

  /**
   What a slice's ending says about the site: every page but the last called for the
   next; and the last was the last announced, announced nothing, repeated earlier
   pages, used up the pages or requests allowed, or could not be had.
   */
  lemma {:induction false} EndingMeans(site: Site, slice: Slice, left: nat, report: Report)
    requires SliceRead(site, slice, left, report)
    ensures var n := report.pages;
      && (forall page :: 1 <= page < n ==> CallsForMore(site, slice, page))
      && (report.ending != Failed ==> 0 < n || left == 0)
      && match report.ending
         case Complete => site(slice.slug, n).Html? && site(slice.slug, n).pageCount.Some?
                          && site(slice.slug, n).pageCount.value <= n
         case NoPageCount => site(slice.slug, n).Html? && site(slice.slug, n).pageCount.None?
         case Repeated => site(slice.slug, n).Html? && site(slice.slug, n).pageCount.Some?
                          && n < site(slice.slug, n).pageCount.value && !ListsSomethingNew(site, slice, n)
         case Capped => (n > 0 ==> CallsForMore(site, slice, n)) && (n == 5 || n == left)
         case Failed => (n > 0 ==> CallsForMore(site, slice, n)) && site(slice.slug, n + 1).HttpError?
  {
    var n := report.pages;
    forall page | 1 <= page <= n && (page < n || report.ending.Capped? || report.ending.Failed?)
      ensures CallsForMore(site, slice, page)
    {
      GoesOnBelow(site, slice, if report.ending.Capped? || report.ending.Failed? then n else n - 1, page);
      CallsForMoreExactly(site, slice, page);
    }
    if n > 0 { AddsSomeExactly(site, slice, n); }
  }

  /** The error field tells of the last slice that was not read to its end, and of none exactly when all were. */
  lemma {:induction false} TroubleIsLast(reports: seq<Report>)
    ensures Trouble(reports) == None <==> forall i :: 0 <= i < |reports| ==> reports[i].ending == Complete
    ensures Trouble(reports).Some? ==>
              exists i :: 0 <= i < |reports| && Trouble(reports) == Some(reports[i].ending) != Some(Complete)
                          && forall j :: i < j < |reports| ==> reports[j].ending == Complete
  {
    if reports != [] && reports[|reports| - 1].ending.Complete? {
      var init := reports[..|reports| - 1];
      TroubleIsLast(init);
      assert forall i :: 0 <= i < |init| ==> init[i] == reports[i];
    }
  }

  // ---------- what a clean crawl means ----------

  /** Every page of a slice reports the same page count. */
  ghost predicate Truthful(site: Site, slice: Slice, count: nat) {
    forall page: nat :: site(slice.slug, page).Html? ==> site(slice.slug, page).pageCount == Some(count)
  }

  /** Without an error, every slice was read through its last page, and no further. */
  lemma {:induction false} CleanCrawlReadsEverything(site: Site, slices: seq<Slice>, reports: seq<Report>, i: nat,
                                                     count: nat)
    requires |reports| <= |slices| && CrawlRead(site, slices, reports) && Trouble(reports) == None
    requires i < |reports| && Truthful(site, slices[i], count)
    ensures reports[i] == Report(Max(1, count), Complete)
    ensures forall page :: 1 <= page <= Max(1, count) ==> site(slices[i].slug, page).Html?
    decreases |reports|
  {
    var init := reports[..|reports| - 1];
    if i < |init| {
      CleanCrawlReadsEverything(site, slices, init, i, count);
    } else {
      var n := reports[i].pages;
      assert PageEnding(site, slices[i], n) == Some(Complete);
      assert GoesOn(site, slices[i], n - 1);
      forall page | 1 <= page <= n
        ensures site(slices[i].slug, page).Html?
      {
        if page < n { GoesOnBelow(site, slices[i], n - 1, page); }
      }
    }
  }

  lemma {:induction false} GoesOnBelow(site: Site, slice: Slice, n: nat, page: nat)
    requires GoesOn(site, slice, n) && 1 <= page <= n
    ensures PageEnding(site, slice, page) == None
  {
    if page < n {
      GoesOnBelow(site, slice, n - 1, page);
    }
  }

  /** The categories of the slices whose pages read list the url, in slice order. */
  function ListedIn(site: Site, slices: seq<Slice>, reports: seq<Report>, url: string): seq<string>
    requires |reports| <= |slices|
  {
    if reports == [] then [] else
      var init := reports[..|reports| - 1];
      var slice := slices[|init|];
      ListedIn(site, slices, init, url)
      + (if url in UrlsThrough(site, slice, reports[|reports| - 1].pages) && slice.category.Some?
         then [slice.category.value] else [])
  }

  /** The urls of everything read. */
  function UrlsRead(site: Site, slices: seq<Slice>, reports: seq<Report>): set<string>
    requires |reports| <= |slices|
  {
    if reports == [] then {} else
      var init := reports[..|reports| - 1];
      UrlsRead(site, slices, init) + UrlsThrough(site, slices[|init|], reports[|reports| - 1].pages)
  }

  function With(categories: seq<string>, listed: bool, category: Option<string>): seq<string> {
    if listed && category.Some? && category.value !in categories then categories + [category.value] else categories
  }

  lemma {:induction false} OneMoreVisit(all: seq<Visit>, visit: Visit, url: string)
    ensures Urls(all + [visit]) == Urls(all) + {visit.candidate.url}
    ensures CategoriesOf(all + [visit], url) == With(CategoriesOf(all, url), url == visit.candidate.url, visit.category)
  {
    UrlsAppend(all, visit);
    CategoriesAppend(all, visit, url);
  }

  lemma {:induction false} UrlsAppend(all: seq<Visit>, visit: Visit)
    ensures Urls(all + [visit]) == Urls(all) + {visit.candidate.url}
  {
    assert forall v :: v in all + [visit] <==> v in all || v == visit;
  }

  lemma {:induction false} CategoriesAppend(all: seq<Visit>, visit: Visit, url: string)
    ensures CategoriesOf(all + [visit], url) == With(CategoriesOf(all, url), url == visit.candidate.url, visit.category)
  {
    var found := FilterMap(all, CategoryAt(url));
    FilterMapAppend(all, visit, CategoryAt(url));
    DedupeSpec(found);
    if url == visit.candidate.url && visit.category.Some? {
      DedupeAppend(found, visit.category.value);
    } else {
      assert found + [] == found;
    }
  }

  lemma {:induction false} ListingSpec(all: seq<Visit>, candidates: seq<Candidate>, category: Option<string>,
                                       url: string)
    ensures Urls(AfterListing(all, candidates, category)) == Urls(all) + UrlsIn(candidates)
    ensures CategoriesOf(AfterListing(all, candidates, category), url)
         == With(CategoriesOf(all, url), url in UrlsIn(candidates), category)
  {
    if candidates != [] {
      var init, last := candidates[..|candidates| - 1], candidates[|candidates| - 1];
      ListingSpec(all, init, category, url);
      OneMoreVisit(AfterListing(all, init, category), Visit(last, category), url);
    }
  }

  lemma {:induction false} PageSpec(all: seq<Visit>, site: Site, slice: Slice, page: nat, url: string)
    ensures Urls(AfterPage(all, site, slice, page)) == Urls(all) + UrlsOn(site, slice, page)
    ensures CategoriesOf(AfterPage(all, site, slice, page), url)
         == With(CategoriesOf(all, url), url in UrlsOn(site, slice, page), slice.category)
  {
    var listing := site(slice.slug, page);
    if listing.Html? {
      ListingSpec(all, listing.candidates, slice.category, url);
    }
  }

  lemma {:induction false} PagesSpec(all: seq<Visit>, site: Site, slice: Slice, n: nat, url: string)
    ensures Urls(AfterPages(all, site, slice, n)) == Urls(all) + UrlsThrough(site, slice, n)
    ensures CategoriesOf(AfterPages(all, site, slice, n), url)
         == With(CategoriesOf(all, url), url in UrlsThrough(site, slice, n), slice.category)
  {
    if n > 0 {
      PagesSpec(all, site, slice, n - 1, url);
      PageSpec(AfterPages(all, site, slice, n - 1), site, slice, n, url);
    }
  }

  lemma {:induction false} CrawlSpec(site: Site, slices: seq<Slice>, reports: seq<Report>, url: string)
    requires |reports| <= |slices|
    ensures Urls(CrawlVisits(site, slices, reports)) == UrlsRead(site, slices, reports)
    ensures CategoriesOf(CrawlVisits(site, slices, reports), url) == Dedupe(ListedIn(site, slices, reports, url))
  {
    if reports != [] {
      var init := reports[..|reports| - 1];
      var slice := slices[|init|];
      CrawlSpec(site, slices, init, url);
      PagesSpec(CrawlVisits(site, slices, init), site, slice, reports[|reports| - 1].pages, url);
      var listed := ListedIn(site, slices, init, url);
      DedupeSpec(listed);
      if slice.category.Some? {
        DedupeAppend(listed, slice.category.value);
      }
      assert listed + [] == listed;
    }
  }

  /** The merged events are the union of the pages read, each with exactly the categories of the slices listing it. */
  lemma {:induction false} MergedIsTheUnion(site: Site, slices: seq<Slice>, reports: seq<Report>, url: string)
    requires |reports| <= |slices|
    ensures var m := MergeCrawl(site, slices, reports);
      && (url in m.events <==> url in UrlsRead(site, slices, reports))
      && (url in m.events ==> m.events[url].candidate.url == url)
      && (url in m.events ==> m.events[url].categories == Dedupe(ListedIn(site, slices, reports, url)))
  {
    var visits := CrawlVisits(site, slices, reports);
    MergeCrawlSpec(site, slices, reports);
    MergeOfSpec(visits);
    CrawlSpec(site, slices, reports, url);
  }
}
