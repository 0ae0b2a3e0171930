/**
 Venue geocoding: the static table, the cached provider with its lookup budget,
 and what enrichment does to the payloads of a cycle.
 */
module Geocoding {
  import opened Prelude
  import opened Lists
  import opened Text
  import opened Tags
  import opened Listings

  datatype Request = Request(venue: Option<string>, address: Option<string>, city: Option<string>)

  /** A provider answers, has no match, or fails; only the second says anything about the venue. */
  datatype Answer = Found(result: GeoAnswer) | NoMatch | Unavailable

  /** The hand-verified table, the text patterns, and the provider's answer to its n-th lookup. */
  datatype World = World(
    curated: Option<string> -> Option<string>,
    placeholder: string -> bool,
    streetAddress: string -> Option<string>,
    normalize: string -> string,
    provider: (string, nat) -> Answer)

  datatype Entry = Entry(result: Option<GeoAnswer>, lookedUp: int)

  datatype Asked = Asked(query: string, answer: Answer)

  const CURATED_CONFIDENCE: real := 0.9
  const DAY: int := 24 * 3600

  /** `_qualify` */
  function Qualify(value: Option<string>, city: Option<string>): Option<string> {
    if value.None? || Strip(value.value) == "" then None else
      var text := Strip(value.value);
      if city.Some? && Strip(city.value) != "" && !Contains(Lower(text), Lower(Strip(city.value)))
      then Some(text + ", " + Strip(city.value) + ", CA")
      else Some(text)
  }

  function Usable(candidate: Option<string>): Option<string> {
    if candidate.Some? && Strip(candidate.value) != "" then Some(Strip(candidate.value)) else None
  }

  function StreetOf(world: World, value: Option<string>): Option<string> {
    if value.None? || value.value == "" then None else world.streetAddress(value.value)
  }

  /** `_query_variants`: most specific first; a placeholder is the absence of a venue. */
  function QueryVariants(world: World, request: Request): seq<string> {
    var name := if request.venue.None? || world.placeholder(request.venue.value) then None else request.venue;
    Dedupe(FilterMap(
      [Qualify(request.address, request.city), Qualify(name, request.city),
       Qualify(StreetOf(world, request.address), request.city), Qualify(StreetOf(world, name), request.city)],
      (c: Option<string>) => Usable(c)))
  }

  function KeyOf(world: World, attempts: seq<string>): string
    requires attempts != []
  {
    world.normalize(attempts[0])
  }

  /** What a sequence of attempts comes to, and how many lookups it spends, when `asked` were spent before. */
  datatype Outcome = Settled(result: Option<GeoAnswer>, spent: nat) | Deferred(spent: nat)

  function Ask(world: World, attempts: seq<string>, asked: nat, left: nat): Outcome {
    if attempts == [] then Settled(None, 0)
    else if left == 0 then Deferred(0)
    else
      match world.provider(attempts[0], asked)
      case Unavailable => Deferred(1)
      case Found(r) => Settled(Some(r), 1)
      case NoMatch =>
        After(1, Ask(world, attempts[1..], asked + 1, left - 1))
  }

  /** The same outcome, `n` lookups later. */
  function After(n: nat, outcome: Outcome): Outcome {
    match outcome
    case Settled(r, m) => Settled(r, m + n)
    case Deferred(m) => Deferred(m + n)
  }

  lemma {:induction false} AskFrom(world: World, attempts: seq<string>, i: nat, asked: nat, left: nat)
    requires i < |attempts| && i <= left
    ensures Ask(world, attempts[i..], asked + i, left - i) ==
            if i == left then Deferred(0) else
              match world.provider(attempts[i], asked + i)
              case Unavailable => Deferred(1)
              case Found(r) => Settled(Some(r), 1)
              case NoMatch => After(1, Ask(world, attempts[i + 1..], asked + (i + 1), left - (i + 1)))
  {
    assert attempts[i..][0] == attempts[i] && attempts[i..][1..] == attempts[i + 1..];
  }

  /** The lookups an outcome stands for, in order. */
  function Lookups(world: World, attempts: seq<string>, asked: nat, n: nat): (log: seq<Asked>)
    requires n <= |attempts|
    ensures |log| == n
  {
    seq(n, i requires 0 <= i < n => Asked(attempts[i], world.provider(attempts[i], asked + i)))
  }

  lemma {:induction false} LookupsGrow(world: World, attempts: seq<string>, before: seq<Asked>, n: nat)
    requires n < |attempts|
    ensures before + Lookups(world, attempts, |before|, n)
            + [Asked(attempts[n], world.provider(attempts[n], |before| + n))]
         == before + Lookups(world, attempts, |before|, n + 1)
  {
  }

  /** The lookups in `log` from `at` on went through `attempts` and ended in `result`. */
  ghost predicate Shows(log: seq<Asked>, at: nat, attempts: seq<string>, result: Option<GeoAnswer>)
    decreases |attempts|
  {
    if attempts == [] then result == None
    else
      && at < |log| && log[at].query == attempts[0]
      && match log[at].answer
         case Found(r) => result == Some(r)
         case NoMatch => Shows(log, at + 1, attempts[1..], result)
         case Unavailable => false
  }

  lemma {:induction false} ShowsLater(log: seq<Asked>, more: seq<Asked>, at: nat, attempts: seq<string>,
                                      result: Option<GeoAnswer>)
    requires Shows(log, at, attempts, result)
    ensures Shows(log + more, at, attempts, result)
    decreases |attempts|
  {
    if attempts != [] && log[at].answer.NoMatch? {
      ShowsLater(log, more, at + 1, attempts[1..], result);
    }
  }

  /** A shown failure means every single variant was answered "no match". */
  lemma {:induction false} ShownFailureTriedAll(log: seq<Asked>, at: nat, attempts: seq<string>, i: nat)
    requires Shows(log, at, attempts, None) && i < |attempts|
    ensures UnmatchedAt(log, at, attempts, i)
    decreases i
  {
    if i > 0 {
      ShownFailureTriedAll(log, at + 1, attempts[1..], i - 1);
    }
  }

  /** An outcome spends at most the budget and one lookup a variant; what it settles on, its lookups show. */
  lemma {:induction false} AskSpec(world: World, attempts: seq<string>, log: seq<Asked>, left: nat)
    ensures var outcome := Ask(world, attempts, |log|, left);
      && outcome.spent <= left && outcome.spent <= |attempts|
      && (outcome.Settled? ==>
          Shows(log + Lookups(world, attempts, |log|, outcome.spent), |log|, attempts, outcome.result))
  {
    if attempts != [] && left > 0 {
      var first := Asked(attempts[0], world.provider(attempts[0], |log|));
      if first.answer.NoMatch? {
        AskSpec(world, attempts[1..], log + [first], left - 1);
        var rest := Ask(world, attempts[1..], |log| + 1, left - 1);
        var n := rest.spent;
        assert log + Lookups(world, attempts, |log|, n + 1) == (log + [first])
               + Lookups(world, attempts[1..], |log| + 1, n);
      }
    }
  }

  /**
   The last lookup decides: a match is the answer, an outage defers, and no match is
   an answer only to the last variant. Lookups are made while the budget lasts.
   */
  lemma {:induction false} LastLookupDecides(world: World, attempts: seq<string>, asked: nat, left: nat)
    ensures var outcome := Ask(world, attempts, asked, left);
      && outcome.spent <= left && outcome.spent <= |attempts| && (outcome.spent == 0 ==> attempts == [] || left == 0)
      && (outcome.spent > 0 ==>
            match world.provider(attempts[outcome.spent - 1], asked + outcome.spent - 1)
            case Found(r) => outcome == Settled(Some(r), outcome.spent)
            case NoMatch =>
              if outcome.spent == |attempts| then outcome == Settled(None, outcome.spent)
              else outcome == Deferred(left)
            case Unavailable => outcome == Deferred(outcome.spent))
  {
    if attempts != [] && left > 0 && world.provider(attempts[0], asked).NoMatch? {
      LastLookupDecides(world, attempts[1..], asked + 1, left - 1);
    }
  }

  /**
   What the cache does, entry by entry: an answer is given at any age and a failure
   while it is younger than the retry period, either without a lookup; an older
   failure, or no entry, is looked up while the budget lasts.
   */
  ghost predicate FromCache(cache: map<string, Entry>, key: string, now: int, retry: int, funded: bool,
                            before: seq<Asked>, log: seq<Asked>, first: string, result: Option<GeoAnswer>) {
    if key in cache && cache[key].result.Some? then result == cache[key].result && log == before
    else if key in cache && now - cache[key].lookedUp < retry then result == None && log == before
    else funded ==> |log| > |before| && log[|before|].query == first
  }

  /**
   The last lookup decides: a match is the answer; a match, or no match for the last
   of the queries, is cached where it can be; nothing else is.
   */
  ghost predicate Concluded(writable: bool, now: int, world: World, queries: seq<string>, cache: map<string, Entry>,
                            cache': map<string, Entry>, before: seq<Asked>, log: seq<Asked>, result: Option<GeoAnswer>)
    requires |log| > |before|
  {
    var last := log[|log| - 1].answer;
    var complete := last.Found? || (last.NoMatch? && |log| == |before| + |queries|);
    && queries != []
    && result == (if last.Found? then Some(last.result) else None)
    && cache' == if complete && writable then cache[KeyOf(world, queries) := Entry(result, now)] else cache
  }

  /** What a request's lookups leave in the log and the cache is what the last of them decides. */
  lemma {:induction false} LookupsConclude(writable: bool, now: int, world: World, queries: seq<string>,
                                           cache: map<string, Entry>, cache': map<string, Entry>,
                                           before: seq<Asked>, log: seq<Asked>, left: nat, result: Option<GeoAnswer>)
    requires queries != [] && Ask(world, queries, |before|, left).spent <= |queries|
    requires var outcome := Ask(world, queries, |before|, left);
      && log == before + Lookups(world, queries, |before|, outcome.spent)
      && result == (if outcome.Settled? then outcome.result else None)
      && cache' == if outcome.Settled? && writable then cache[KeyOf(world, queries) := Entry(result, now)] else cache
    ensures left > 0 ==> |log| > |before| && log[|before|].query == queries[0]
    ensures |log| > |before| ==> Concluded(writable, now, world, queries, cache, cache', before, log, result)
  {
    LastLookupDecides(world, queries, |before|, left);
  }

  /** Some request with this cache key was put to the provider and came to `result`, unhampered by outage or budget. */
  ghost predicate Established(world: World, log: seq<Asked>, key: string, result: Option<GeoAnswer>) {
    exists request: Request, at: nat :: EstablishedBy(world, log, key, result, request, at)
  }

  ghost predicate EstablishedBy(world: World, log: seq<Asked>, key: string, result: Option<GeoAnswer>, request: Request,
                                at: nat) {
    var attempts := QueryVariants(world, request);
    attempts != [] && KeyOf(world, attempts) == key && Shows(log, at, attempts, result)
  }

  lemma {:induction false} EstablishedLater(world: World, log: seq<Asked>, more: seq<Asked>, key: string,
                                            result: Option<GeoAnswer>)
    requires Established(world, log, key, result)
    ensures Established(world, log + more, key, result)
  {
    var request: Request, at: nat :| EstablishedBy(world, log, key, result, request, at);
    ShowsLater(log, more, at, QueryVariants(world, request), result);
    assert EstablishedBy(world, log + more, key, result, request, at);
  }

  /** An answer the geocoder may give: curated, or established by a lookup under some key. */
  ghost predicate Sourced(world: World, log: seq<Asked>, venue: Option<string>, result: GeoAnswer) {
    || (world.curated(venue) == Some(result.point) && result.confidence == CURATED_CONFIDENCE)
    || exists key :: Established(world, log, key, Some(result))
  }

  lemma {:induction false} SourcedLater(world: World, log: seq<Asked>, more: seq<Asked>, venue: Option<string>,
                                        result: GeoAnswer)
    requires Sourced(world, log, venue, result)
    ensures Sourced(world, log + more, venue, result)
  {
    if key :| Established(world, log, key, Some(result)) {
      EstablishedLater(world, log, more, key, Some(result));
    }
  }

  /** An enriched payload: as it was, or at a searchable place that was not there before. */
  ghost predicate Raised(world: World, log: seq<Asked>, l: Listing, e: Listing) {
    || e == l
    || (&& e == l.(location := e.location, confidence := e.confidence)
        && l.confidence < SEARCHABLE_CONFIDENCE <= e.confidence
        && Sourced(world, log, l.venueName, GeoAnswer(e.location, e.confidence)))
  }

  lemma {:induction false} RaisedLater(world: World, log: seq<Asked>, later: seq<Asked>, l: Listing, e: Listing)
    requires Raised(world, log, l, e) && log <= later
    ensures Raised(world, later, l, e)
  {
    assert later == log + later[|log|..];
    if e != l {
      SourcedLater(world, log, later[|log|..], l.venueName, GeoAnswer(e.location, e.confidence));
    }
  }

  /** Not searchable as it came, at a venue of the hand-verified table. */
  predicate IsCurated(world: World, l: Listing) {
    l.confidence < 0.5 && world.curated(l.venueName).Some?
  }

  /** Everything cached was established by the lookups made so far. */
  ghost predicate Sound(world: World, log: seq<Asked>, cache: map<string, Entry>) {
    forall key :: key in cache ==> Established(world, log, key, cache[key].result)
  }

  lemma {:induction false} SoundLater(world: World, log: seq<Asked>, more: seq<Asked>, cache: map<string, Entry>)
    requires Sound(world, log, cache)
    ensures Sound(world, log + more, cache)
  {
    forall key | key in cache
      ensures Established(world, log + more, key, cache[key].result)
    {
      EstablishedLater(world, log, more, key, cache[key].result);
    }
  }

  ghost predicate UnmatchedAt(log: seq<Asked>, at: nat, attempts: seq<string>, i: nat) {
    i < |attempts| && at + i < |log| && log[at + i] == Asked(attempts[i], NoMatch)
  }

  /** From `at` on, the provider answered "no match" to every variant of the request. */
  ghost predicate AllUnmatched(world: World, log: seq<Asked>, request: Request, at: nat) {
    var attempts := QueryVariants(world, request);
    attempts != [] && forall i :: 0 <= i < |attempts| ==> UnmatchedAt(log, at, attempts, i)
  }

  /** A cached failure exists only if every variant of some request with that key went unmatched. */
  lemma {:induction false} CachedFailureTriedEverything(world: World, log: seq<Asked>, cache: map<string, Entry>,
                                                        key: string)
    requires Sound(world, log, cache) && key in cache && cache[key].result.None?
    ensures exists request: Request, at: nat ::
      AllUnmatched(world, log, request, at) && KeyOf(world, QueryVariants(world, request)) == key
  {
    assert Established(world, log, key, None);
    var request: Request, at: nat :| EstablishedBy(world, log, key, None, request, at);
    var attempts := QueryVariants(world, request);
    forall i | 0 <= i < |attempts|
      ensures UnmatchedAt(log, at, attempts, i)
    {
      ShownFailureTriedAll(log, at, attempts, i);
    }
    assert AllUnmatched(world, log, request, at);
  }

  /** What one call meets outside: a session or none, a failing cache table, and the clock. */
  datatype Weather = Weather(session: bool, readFails: bool, writeFails: bool, readAt: int, writtenAt: int)

  datatype Hit = Miss | Hit(result: Option<GeoAnswer>)

  /** What the cache says: an answer for good, or a failure until it is `retry` old. */
  function Cached(cache: map<string, Entry>, key: string, now: int, retry: int): Hit {
    if key !in cache then Miss
    else if cache[key].result.Some? then Hit(cache[key].result)
    else if now - cache[key].lookedUp >= retry then Miss
    else Hit(None)
  }

  /** `VenueGeocoder` together with the cache table it reads and writes. */
  class VenueGeocoder {
    const world: World
    const hasProvider: bool
    const budget: nat
    const retry: int
    var cache: map<string, Entry>
    var lookups: nat
    var usable: bool
    var log: seq<Asked>            // the provider's side: every lookup so far
    ghost var runStart: nat        // how many of them earlier runs made

    ghost predicate Valid()
      reads this
    {
      && Sound(world, log, cache)
      && lookups <= budget
      && |log| == runStart + lookups
    }

    constructor (world: World, hasProvider: bool, budget: nat, retryDays: int)
      ensures Valid() && cache == map[] && log == [] && usable
      ensures this.world == world && this.hasProvider == hasProvider && this.budget == budget
              && this.retry == retryDays * DAY
    {
      this.world, this.hasProvider, this.budget, this.retry := world, hasProvider, budget, retryDays * DAY;
      cache, lookups, usable := map[], 0, true;
      log, runStart := [], 0;
    }

    method ResetRunBudget()
      requires Valid()
      modifies this
      ensures Valid() && lookups == 0 && usable && runStart == |log|
      ensures cache == old(cache) && log == old(log)
    {
      lookups := 0;
      usable := true;
      runStart := |log|;
    }

    /** `_read_cache`; a failed read gives the cache up for this run. */
    method ReadCache(weather: Weather, key: string) returns (hit: Hit)
      modifies this`usable
      ensures hit == if weather.session && old(usable) && !weather.readFails
              then Cached(cache, key, weather.readAt, retry) else Miss
      ensures usable == (old(usable) && !(weather.session && weather.readFails))
    {
      if !weather.session || !usable { return Miss; }
      if weather.readFails {
        usable := false;
        return Miss;
      }
      hit := Cached(cache, key, weather.readAt, retry);
    }

    /** `_write_cache` */
    method WriteCache(weather: Weather, key: string, result: Option<GeoAnswer>)
      modifies this`cache, this`usable
      ensures cache == if weather.session && old(usable) && !weather.writeFails
                       then old(cache)[key := Entry(result, weather.writtenAt)] else old(cache)
      ensures usable == (old(usable) && !(weather.session && weather.writeFails))
    {
      if !weather.session || !usable { return; }
      if weather.writeFails {
        usable := false;
        return;
      }
      cache := cache[key := Entry(result, weather.writtenAt)];
    }

    /** One lookup, counted against the budget. */
    method LookUpOnce(query: string) returns (answer: Answer)
      modifies this`lookups, this`log
      ensures answer == world.provider(query, |old(log)|)
      ensures log == old(log) + [Asked(query, answer)] && lookups == old(lookups) + 1
    {
      lookups := lookups + 1;
      answer := world.provider(query, |log|);
      log := log + [Asked(query, answer)];
    }

    /** The lookup loop: one variant after another until one matches, the budget runs out, or the provider fails. */
    method AskProvider(attempts: seq<string>) returns (outcome: Outcome)
      requires lookups <= budget
      modifies this`lookups, this`log
      ensures outcome == Ask(world, attempts, |old(log)|, budget - old(lookups))
      ensures outcome.spent <= |attempts| && log == old(log) + Lookups(world, attempts, |old(log)|, outcome.spent)
      ensures lookups == old(lookups) + outcome.spent <= budget
    {
      ghost var left := budget - lookups;
      var before := log;
      ghost var whole := Ask(world, attempts, |before|, left);
      var i := 0;
      while i < |attempts|
        invariant 0 <= i <= |attempts|
        invariant lookups == old(lookups) + i && i <= left
        invariant log == before + Lookups(world, attempts, |before|, i)
        invariant whole == After(i, Ask(world, attempts[i..], |before| + i, left - i))
      {
        AskFrom(world, attempts, i, |before|, left);
        if lookups >= budget {
          return Deferred(i);
        }
        LookupsGrow(world, attempts, before, i);
        var answer := LookUpOnce(attempts[i]);
        if answer.Unavailable? {
          return Deferred(i + 1);
        }
        if answer.Found? {
          return Settled(Some(answer.result), i + 1);
        }
        i := i + 1;
      }
      outcome := Settled(None, i);
    }

    /** What the cache answers before any lookup. */
    ghost function CacheAnswer(weather: Weather, key: string): Hit
      reads this
    {
      if weather.session && usable && !weather.readFails then Cached(cache, key, weather.readAt, retry) else Miss
    }

    /** The request's queries, where the curated table leaves any to be made. */
    ghost function Queries(request: Request): seq<string> {
      if world.curated(request.venue).None? && hasProvider then QueryVariants(world, request) else []
    }

    /**
     What looking the queries up leaves behind; only a complete answer is cached, never an
     outage or a spent budget.
     */
    twostate predicate LookedUp(weather: Weather, attempts: seq<string>, new result: Option<GeoAnswer>)
      requires attempts != [] && old(lookups) <= budget
      reads this
    {
      var outcome := Ask(world, attempts, |old(log)|, budget - old(lookups));
      var kept := outcome.Settled? && weather.session && old(usable) && !weather.readFails && !weather.writeFails;
      && result == (if outcome.Settled? then outcome.result else None)
      && outcome.spent <= |attempts| && log == old(log) + Lookups(world, attempts, |old(log)|, outcome.spent)
      && cache == if kept then old(cache)[KeyOf(world, attempts) := Entry(result, weather.writtenAt)] else old(cache)
    }

    /** The provider, for a request the cache did not answer. */
    method LookUp(weather: Weather, ghost request: Request, attempts: seq<string>) returns (result: Option<GeoAnswer>)
      requires Valid() && attempts != [] && attempts == QueryVariants(world, request)
      modifies this`cache, this`usable, this`lookups, this`log
      ensures Valid() && runStart == old(runStart)
      ensures LookedUp(weather.(readFails := false), attempts, result)
      ensures result.Some? ==> Established(world, log, KeyOf(world, attempts), result)
    {
      ghost var before := log;
      var key := KeyOf(world, attempts);
      AskSpec(world, attempts, log, budget - lookups);
      var outcome := AskProvider(attempts);
      SoundLater(world, before, Lookups(world, attempts, |before|, outcome.spent), cache);
      if outcome.Deferred? {
        return None;
      }
      result := outcome.result;
      assert EstablishedBy(world, log, key, result, request, |before|);
      WriteCache(weather, key, result);
    }

    /** The cache answered, or the provider was asked. */
    twostate predicate Answered(weather: Weather, queries: seq<string>, new result: Option<GeoAnswer>)
      requires queries != [] && old(lookups) <= budget
      reads this
    {
      match old(CacheAnswer(weather, KeyOf(world, queries)))
      case Hit(answer) => result == answer && log == old(log) && cache == old(cache)
      case Miss => LookedUp(weather, queries, result)
    }

    /** The cache, then the provider. */
    method ResolveQueries(weather: Weather, ghost request: Request, attempts: seq<string>)
      returns (result: Option<GeoAnswer>)
      requires Valid() && attempts != [] && attempts == QueryVariants(world, request)
      modifies this`cache, this`usable, this`lookups, this`log
      ensures Valid() && runStart == old(runStart) && old(log) <= log
      ensures result.Some? ==> Established(world, log, KeyOf(world, attempts), result)
      ensures Answered(weather, attempts, result)
      ensures weather.session && old(usable) && !weather.readFails ==>
        FromCache(old(cache), KeyOf(world, attempts), weather.readAt, retry, old(lookups) < budget, old(log), log,
                  attempts[0],
                  result)
      ensures |log| > |old(log)| ==>
        Concluded(weather.session && old(usable) && !weather.readFails && !weather.writeFails, weather.writtenAt,
                  world, attempts, old(cache), cache, old(log), log, result)
    {
      var key := KeyOf(world, attempts);
      var hit := ReadCache(weather, key);
      if hit.Hit? {
        assert Established(world, log, key, cache[key].result);
        return hit.result;
      }
      ghost var before, left, entries := log, budget - lookups, cache;
      ghost var writable := weather.session && usable && !weather.writeFails;
      result := LookUp(weather, request, attempts);
      LookupsConclude(writable, weather.writtenAt, world, attempts, entries, cache, before, log, left, result);
    }

    /**
     The curated table, then the cache, then the provider. A cached answer, and a
     cached failure that is young enough, costs no lookup.
     */
    method Resolve(weather: Weather, request: Request) returns (result: Option<GeoAnswer>)
      requires Valid()
      modifies this`cache, this`usable, this`lookups, this`log
      ensures Valid() && runStart == old(runStart) && old(log) <= log
      ensures result.Some? ==> Sourced(world, log, request.venue, result.value)
      ensures Queries(request) == [] ==>
        && log == old(log) && cache == old(cache)
        && result == match world.curated(request.venue)
                     case Some(point) => Some(GeoAnswer(point, CURATED_CONFIDENCE))
                     case None => None
      ensures Queries(request) != [] ==>
        Answered(weather, Queries(request), result)
      ensures Queries(request) != [] && weather.session && old(usable) && !weather.readFails ==>
        FromCache(old(cache), KeyOf(world, Queries(request)), weather.readAt, retry, old(lookups) < budget, old(log),
                  log, Queries(request)[0],
                  result)
      ensures |log| > |old(log)| ==>
        Concluded(weather.session && old(usable) && !weather.readFails && !weather.writeFails, weather.writtenAt,
                  world, Queries(request), old(cache), cache, old(log), log, result)
    {
      var curated := world.curated(request.venue);
      if curated.Some? {
        return Some(GeoAnswer(curated.value, CURATED_CONFIDENCE));
      }
      if !hasProvider { return None; }
      var attempts := QueryVariants(world, request);
      if attempts == [] { return None; }
      result := ResolveQueries(weather, request, attempts);
    }

    /**
     `enrich_locations`: one run over the payloads of a cycle. Each keeps its
     place or moves to a strictly better one; the run stays within its budget.
     */
    method EnrichLocations(weathers: seq<Weather>, listings: seq<Listing>) returns (enriched: seq<Listing>)
      requires Valid() && |weathers| == |listings|
      modifies this
      ensures Valid() && |log| - |old(log)| <= budget
      ensures |enriched| == |listings|
      ensures forall i :: 0 <= i < |listings| ==> Raised(world, log, listings[i], enriched[i])
      ensures forall i :: 0 <= i < |listings| && IsCurated(world, listings[i]) ==>
                enriched[i].location == world.curated(listings[i].venueName).value && enriched[i].confidence == 0.9
    {
      ResetRunBudget();
      enriched := [];
      for i := 0 to |listings|
        invariant Valid() && runStart == |old(log)|
        invariant |enriched| == i
        invariant forall k :: 0 <= k < i ==> Raised(world, log, listings[k], enriched[k])
        invariant forall k :: 0 <= k < i && IsCurated(world, listings[k]) ==>
                    && enriched[k].location == world.curated(listings[k].venueName).value
                    && enriched[k].confidence == 0.9
      {
        var l := listings[i];
        if l.confidence >= SEARCHABLE_CONFIDENCE {
          enriched := enriched + [l];
          continue;
        }
        ghost var before := log;
        var result := Resolve(weathers[i], Request(l.venueName, l.rawAddress, l.city));
        forall k | 0 <= k < i
          ensures Raised(world, log, listings[k], enriched[k])
        {
          RaisedLater(world, before, log, listings[k], enriched[k]);
        }
        enriched := enriched + [EnrichLocation(l, result)];
      }
    }
  }

  /** A text without its outer whitespace, and with the city after it where it does not name the city. */
  predicate NamesPlace(query: string, text: string, city: Option<string>) {
    var place := Strip(text);
    if city.None? || Strip(city.value) == "" || Contains(Lower(place), Lower(Strip(city.value))) then query == place
    else query == place + ", " + Strip(city.value) + ", CA"
  }

  /** The texts a request is looked up by: its address, its venue unless a placeholder, and the street in either. */
  predicate LookedUpBy(world: World, request: Request, text: string) {
    && Strip(text) != ""
    && (|| request.address == Some(text)
        || (request.venue == Some(text) && !world.placeholder(text))
        || (request.address.Some? && request.address.value != ""
            && world.streetAddress(request.address.value) == Some(text))
        || (request.venue.Some? && request.venue.value != "" && !world.placeholder(request.venue.value)
            && world.streetAddress(request.venue.value) == Some(text)))
  }

  lemma {:induction false} QualifiedIsUsable(text: string, city: Option<string>)
    requires Strip(text) != ""
    ensures Usable(Qualify(Some(text), city)).Some? && Usable(Qualify(Some(text), city)).value != ""
    ensures forall query :: NamesPlace(query, text, city) <==> query == Usable(Qualify(Some(text), city)).value
  {
    var place := Strip(text);
    StripTrims(text);
    if city.Some? {
      var long := place + ", " + Strip(city.value) + ", CA";
      assert long[0] == place[0] && long[|long| - 1] == 'A';
      StripTrims(long);
    }
  }

  /** The texts of a request, most specific first. */
  function TextsOf(world: World, request: Request): seq<Option<string>> {
    var name := if request.venue.None? || world.placeholder(request.venue.value) then None else request.venue;
    [request.address, name, StreetOf(world, request.address), StreetOf(world, name)]
  }

  function QueryOf(city: Option<string>): Option<string> -> Option<string> {
    text => Usable(Qualify(text, city))
  }

  lemma {:induction false} QueriesOfTexts(texts: seq<Option<string>>, candidates: seq<Option<string>>,
                                          city: Option<string>, usable: Option<string> -> Option<string>)
    requires |candidates| == |texts| && forall i :: 0 <= i < |texts| ==> candidates[i] == Qualify(texts[i], city)
    requires forall c :: usable(c) == Usable(c)
    ensures FilterMap(candidates, usable) == FilterMap(texts, QueryOf(city))
  {
    if texts != [] {
      QueriesOfTexts(texts[..|texts| - 1], candidates[..|texts| - 1], city, usable);
    }
  }

  lemma {:induction false} VariantsOfTexts(world: World, request: Request)
    ensures QueryVariants(world, request) == Dedupe(FilterMap(TextsOf(world, request), QueryOf(request.city)))
  {
    var texts := TextsOf(world, request);
    QueriesOfTexts(texts, [Qualify(texts[0], request.city), Qualify(texts[1], request.city),
                           Qualify(texts[2], request.city), Qualify(texts[3], request.city)],
                   request.city, (c: Option<string>) => Usable(c));
  }

  predicate IsText(text: Option<string>) {
    text.Some? && Strip(text.value) != ""
  }

  /** The first usable text gives the first query. */
  lemma {:induction false} FirstTextFirst(texts: seq<Option<string>>, city: Option<string>, k: nat)
    requires k < |texts| && IsText(texts[k]) && forall i :: 0 <= i < k ==> !IsText(texts[i])
    ensures var found := FilterMap(texts, QueryOf(city));
      found != [] && NamesPlace(found[0], texts[k].value, city)
  {
    QualifiedIsUsable(texts[k].value, city);
    var front, rest := texts[..k], texts[k + 1..];
    assert texts == (front + [texts[k]]) + rest;
    NoQueries(front, city);
    FilterMapAppend(front, texts[k], QueryOf(city));
    FilterMapConcat(front + [texts[k]], rest, QueryOf(city));
  }

  lemma {:induction false} NoQueries(texts: seq<Option<string>>, city: Option<string>)
    requires forall text :: text in texts ==> !IsText(text)
    ensures FilterMap(texts, QueryOf(city)) == []
  {
    if texts != [] {
      assert texts[|texts| - 1] in texts;
      NoQueries(texts[..|texts| - 1], city);
    }
  }

  lemma {:induction false} DedupeFirst<T>(s: seq<T>)
    requires s != []
    ensures Dedupe(s) != [] && Dedupe(s)[0] == s[0]
  {
    if |s| > 1 {
      DedupeFirst(s[..|s| - 1]);
    }
  }

  lemma {:induction false} QueryNamesPlace(text: Option<string>, city: Option<string>, q: string)
    ensures QueryOf(city)(text) == Some(q) <==> IsText(text) && NamesPlace(q, text.value, city)
  {
    if IsText(text) { QualifiedIsUsable(text.value, city); }
  }

  lemma {:induction false} TextsExactly(world: World, request: Request, text: string)
    ensures Some(text) in TextsOf(world, request) && IsText(Some(text)) <==> LookedUpBy(world, request, text)
  {
  }

  lemma {:induction false} QueriesMade(texts: seq<Option<string>>, city: Option<string>, q: string)
    ensures q in Dedupe(FilterMap(texts, QueryOf(city))) <==>
            exists text :: Some(text) in texts && IsText(Some(text)) && NamesPlace(q, text, city)
  {
    DedupeSpec(FilterMap(texts, QueryOf(city)));
    FilterMapMembers(texts, QueryOf(city));
    if text :| text in texts && QueryOf(city)(text) == Some(q) {
      QueryNamesPlace(text, city, q);
      assert Some(text.value) in texts;
    }
    if text :| Some(text) in texts && IsText(Some(text)) && NamesPlace(q, text, city) {
      QueryNamesPlace(Some(text), city, q);
    }
  }

  /** Exactly these queries are made. */
  lemma {:induction false} VariantsExactly(world: World, request: Request, q: string)
    ensures q in QueryVariants(world, request) <==>
            exists text :: LookedUpBy(world, request, text) && NamesPlace(q, text, request.city)
  {
    VariantsOfTexts(world, request);
    QueriesMade(TextsOf(world, request), request.city, q);
    forall text
      ensures Some(text) in TextsOf(world, request) && IsText(Some(text)) <==> LookedUpBy(world, request, text)
    {
      TextsExactly(world, request, text);
    }
  }

  lemma {:induction false} FirstQuery(texts: seq<Option<string>>, city: Option<string>, k: nat)
    requires k < |texts| && IsText(texts[k]) && forall i :: 0 <= i < k ==> !IsText(texts[i])
    ensures var attempts := Dedupe(FilterMap(texts, QueryOf(city)));
      attempts != [] && NamesPlace(attempts[0], texts[k].value, city)
  {
    FirstTextFirst(texts, city, k);
    DedupeFirst(FilterMap(texts, QueryOf(city)));
  }

  lemma {:induction false} FirstVariant(world: World, request: Request, k: nat)
    requires k < 4 && IsText(TextsOf(world, request)[k])
    requires forall i :: 0 <= i < k ==> !IsText(TextsOf(world, request)[i])
    ensures QueryVariants(world, request) != []
    ensures NamesPlace(QueryVariants(world, request)[0], TextsOf(world, request)[k].value, request.city)
  {
    VariantsOfTexts(world, request);
    FirstQuery(TextsOf(world, request), request.city, k);
  }

  /** The address is tried first, if there is one. */
  lemma {:induction false} AddressComesFirst(world: World, request: Request)
    requires request.address.Some? && Strip(request.address.value) != ""
    ensures QueryVariants(world, request) != []
    ensures NamesPlace(QueryVariants(world, request)[0], request.address.value, request.city)
  {
    FirstVariant(world, request, 0);
  }

  /** Without an address, the venue is, unless it is a placeholder. */
  lemma {:induction false} VenueComesNext(world: World, request: Request)
    requires request.address.None? || Strip(request.address.value) == ""
    requires request.venue.Some? && Strip(request.venue.value) != "" && !world.placeholder(request.venue.value)
    ensures QueryVariants(world, request) != []
    ensures NamesPlace(QueryVariants(world, request)[0], request.venue.value, request.city)
  {
    FirstVariant(world, request, 1);
  }

  /** The variants are distinct, trimmed, nonblank, and at most four. */
  lemma {:induction false} VariantsAreProper(world: World, request: Request)
    ensures var attempts := QueryVariants(world, request);
      && |attempts| <= 4 && NoDuplicates(attempts)
      && forall q :: q in attempts ==> q != "" && Trimmed(q)
  {
    var texts, query := TextsOf(world, request), QueryOf(request.city);
    VariantsOfTexts(world, request);
    FilterMapLength(texts, query);
    DedupeSpec(FilterMap(texts, query));
    FilterMapMembers(texts, query);
    forall q | q in QueryVariants(world, request)
      ensures q != "" && Trimmed(q)
    {
      var text :| text in texts && query(text) == Some(q);
      StripTrims(Qualify(text, request.city).value);
    }
  }

  lemma {:induction false} FilterMapLength<T, U>(s: seq<T>, f: T -> Option<U>)
    ensures |FilterMap(s, f)| <= |s|
  {
    if s != [] {
      FilterMapLength(s[..|s| - 1], f);
    }
  }
}
