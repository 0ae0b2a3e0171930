/**
 Replaying observations. Processing an observation again right after it was
 processed changes nothing, and a whole batch of new identities can be run twice:
 the second pass skips everything, although later observations of the first pass
 may have been merged into the events of earlier ones.
 */
module Replay {
  import opened Prelude
  import opened Lists
  import opened Text
  import opened Listings
  import opened Matching
  import opened Merging
  import opened Sorting
  import opened Ingest
  import opened Invariants

  function Clips(s: seq<string>): seq<string> {
    FilterMap(s, ClipPresent)
  }

  /** `CatalogLabels` of a merged list is one pass: clip, deduplicate, cap. */
  lemma {:induction false} CatalogLabelsOfMerge(a: seq<string>, b: seq<string>)
    ensures CatalogLabels(MergeLists(a, b)) == Take(Dedupe(Clips(a + b)), LABEL_COUNT)
  {
    var v := MergeLists(a, b);
    DedupeFilterMap(FilterMap(v, StripPresent), ClipPresent);
    forall x | x in v
      ensures ClipPresent(x) == if StripPresent(x).Some? then ClipPresent(StripPresent(x).value) else None
    {
      StripTrims(x);
    }
    FilterMapFuse(v, StripPresent, ClipPresent, ClipPresent);
    DedupeFilterMap(FilterMap(a + b, NonBlank), ClipPresent);
    FilterMapFuse(a + b, NonBlank, ClipPresent, ClipPresent);
  }

  /** Capping is idempotent: re-adding what was kept keeps exactly that. */
  lemma {:induction false} TakeDedupeAgain<T>(c: seq<T>, extra: seq<T>, n: nat)
    ensures Take(Dedupe(c + Take(Dedupe(c + extra), n)), n) == Take(Dedupe(c + extra), n)
  {
    var d, kept := Dedupe(c), Take(Dedupe(c + extra), n);
    DedupePrefix(c, extra);
    DedupeSpec(c);
    DedupeSpec(c + extra);
    if |d| >= n {
      assert kept == d[..n];
      assert forall x :: x in kept ==> x in d;
      DedupeAbsorb(c, kept);
    } else {
      var tail := kept[|d|..];
      assert kept == d + tail;
      DedupeAbsorb(c, d);
      TakeMembers(Dedupe(c + extra), n);
      assert c + kept == (c + d) + tail;
      assert forall i :: 0 <= i < |tail| ==> tail[i] == kept[|d| + i];
      assert forall i :: 0 <= i < |d| ==> d[i] == kept[i];
      assert forall x :: x in c + d ==> x in d;
      DedupeDistinctTail(c + d, tail);
    }
  }

  /** A list that another restatement of its own sources leaves alone. */
  ghost predicate LabelsSettled(kept: seq<string>, published: seq<string>) {
    && (forall x :: x in kept ==> CleanLabel(x))
    && Take(Dedupe(Clips(published) + kept), LABEL_COUNT) == kept
  }

  lemma {:induction false} ClipsOfClean(s: seq<string>)
    requires forall x :: x in s ==> CleanLabel(x)
    ensures Clips(s) == s
  {
    forall x | x in s
      ensures ClipPresent(x) == Some(x)
    {
      ClipPresentFixes(x);
    }
    FilterMapFixed(s, ClipPresent);
  }

  lemma {:induction false} ClipsOfShort(s: seq<string>)
    requires forall x :: x in s ==> ShortLabel(x)
    ensures forall y :: y in Clips(s) ==> CleanLabel(y)
  {
    FilterMapMembers(s, ClipPresent);
    forall y | y in Clips(s)
      ensures CleanLabel(y)
    {
      var x :| x in s && ClipPresent(x) == Some(y);
      ClipPresentFixes(x);
    }
  }

  lemma {:induction false} UpdateLabelsSettles(prior: seq<string>, retracted: seq<string>, published: seq<string>)
    requires forall x :: x in prior ==> ShortLabel(x)
    requires forall x :: x in published ==> ShortLabel(x)
    ensures LabelsSettled(UpdateLabels(prior, retracted, published), published)
  {
    var inherited := Without(prior, retracted);
    WithoutMembers(prior, retracted);
    CatalogLabelsOfMerge(published, inherited);
    FilterMapConcat(published, inherited, ClipPresent);
    var kept := UpdateLabels(prior, retracted, published);
    TakeDedupeAgain(Clips(published), Clips(inherited), LABEL_COUNT);
    ClipsOfShort(published);
    ClipsOfShort(inherited);
    DedupeSpec(Clips(published + inherited));
    TakeMembers(Dedupe(Clips(published + inherited)), LABEL_COUNT);
  }

  /** Retracting labels that are still published changes nothing. */
  lemma {:induction false} SettledLabelsStay(kept: seq<string>, retracted: seq<string>, published: seq<string>)
    requires LabelsSettled(kept, published)
    requires forall x :: x in retracted ==> x in published
    ensures UpdateLabels(kept, retracted, published) == kept
  {
    var inherited := Without(kept, retracted);
    WithoutMembers(kept, retracted);
    CatalogLabelsOfMerge(published, inherited);
    FilterMapConcat(published, inherited, ClipPresent);
    ClipsOfClean(inherited);
    forall x | x in kept && x in retracted
      ensures x in Clips(published)
    {
      ClipPresentFixes(x);
      FilterMapHas(published, x, ClipPresent);
    }
    DedupeWithout(Clips(published), kept, retracted);
  }

  lemma {:induction false} PublishedMembers(records: map<Identity, Record>, keys: seq<Identity>, f: Field)
    requires forall k :: k in keys ==> k in records
    ensures forall x :: x in Published(records, keys, f) <==> exists k :: k in keys && x in Facts(records[k], f)
  {
    if keys != [] {
      assert keys == [keys[0]] + keys[1..];
      PublishedMembers(records, keys[1..], f);
    }
  }

  lemma {:induction false} PublishedForMembers(records: map<Identity, Record>, id: nat, owner: Listing, f: Field)
    ensures forall x :: x in PublishedFor(records, id, owner, f) <==>
              exists k :: k in records && records[k].eventId == id && x in Facts(records[k], f)
  {
    PublishedMembers(records, SortedRecords(records, id, owner), f);
  }

  /** What is published for an event depends only on its own records and its owner. */
  lemma {:induction false} PublishedForSame(a: map<Identity, Record>, b: map<Identity, Record>, id: nat, rowA: Listing,
                                            rowB: Listing, f: Field)
    requires rowA.sourceName == rowB.sourceName && rowA.sourceEventId == rowB.sourceEventId
    requires RecordsOf(a, id) == RecordsOf(b, id)
    requires forall k :: k in RecordsOf(a, id) ==> a[k] == b[k]
    ensures PublishedFor(a, id, rowA, f) == PublishedFor(b, id, rowB, f)
  {
    forall k | k in SortedRecords(a, id, rowA)
      ensures k in a && k in b && a[k] == b[k]
    {
      assert k in RecordsOf(a, id);
    }
    PublishedSame(a, b, SortedRecords(a, id, rowA), f);
  }

  lemma {:induction false} PublishedSame(a: map<Identity, Record>, b: map<Identity, Record>, keys: seq<Identity>,
                                         f: Field)
    requires forall k :: k in keys ==> k in a && k in b && a[k] == b[k]
    ensures Published(a, keys, f) == Published(b, keys, f)
  {
    if keys != [] {
      PublishedSame(a, b, keys[1..], f);
    }
  }

  /** Venue or address contradict each other, whatever else is known. */
  predicate PlaceConflict(env: Env, a: Listing, b: Listing) {
    || (!IsMissing(a.venueName) && !IsMissing(b.venueName) && !SameVenue(env, a.venueName, b.venueName))
    || (!IsMissing(a.rawAddress) && !IsMissing(b.rawAddress)
        && env.fold(Strip(a.rawAddress.value)) != env.fold(Strip(b.rawAddress.value)))
  }

  /** The row already holds every enrichment this observation could bring. */
  ghost predicate Enriched(env: Env, row: Listing, l: Listing) {
    && !HasNew(l.tags, row.tags)
    && !HasNew(l.categories, row.categories)
    && (l.confidence <= row.confidence + CONFIDENCE_MARGIN || PlaceConflict(env, row, l))
  }

  /** The store already knows this observation, and seeing it again will change nothing. */
  ghost predicate Settled(env: Env, st: Store, o: Observation) {
    && IsReplay(st, o)
    && var r := st.records[IdentityOf(o.listing)];
    && r.eventId in st.events
    && var row := st.events[r.eventId];
    && Enriched(env, row, o.listing)
    && RecordSettled(r, o.listing)
    && RowLabelsSettled(st.records, r.eventId, row)
  }

  ghost predicate RecordSettled(r: Record, l: Listing) {
    Restated(r.performers, l.performers) == r.performers && Restated(r.genres, l.genres) == r.genres
  }

  ghost predicate RowLabelsSettled(records: map<Identity, Record>, id: nat, row: Listing) {
    && LabelsSettled(row.performers, PublishedFor(records, id, row, Performers))
    && LabelsSettled(row.genres, PublishedFor(records, id, row, Genres))
  }

  /** A settled observation is skipped and leaves the store exactly as it was. */
  lemma {:induction false} SettledIsSkipped(env: Env, st: Store, o: Observation, scan: seq<nat>)
    requires Inv(env, st) && Normalized(env, o) && Settled(env, st, o)
    ensures Process(env, st, o, scan) == Ok(Outcome(st, st.records[IdentityOf(o.listing)].eventId, false, false))
  {
    var k := IdentityOf(o.listing);
    var id := st.records[k].eventId;
    RecordsDecideOwnership(st, o.listing);
    RouteFlags(env, st, o, scan);
    SettledIsInsignificant(env, st, o);
    SettledIsRemembered(env, st, o);
  }

  lemma {:induction false} SettledIsInsignificant(env: Env, st: Store, o: Observation)
    requires Inv(env, st) && Settled(env, st, o)
    ensures !Significant(env, st.events[st.records[IdentityOf(o.listing)].eventId], o.listing, true, false)
  {
    StoredRowReadsBack(env, st.events[st.records[IdentityOf(o.listing)].eventId]);
  }

  lemma {:induction false} SettledIsRemembered(env: Env, st: Store, o: Observation)
    requires Settled(env, st, o)
    ensures var id := st.records[IdentityOf(o.listing)].eventId;
            var row := st.events[id];
            && st.events[id := row] == st.events
            && Remember(st, id, o, row.performers, row.genres) == Ok(Remembered(st, false))
  {
    var k := IdentityOf(o.listing);
    var r := st.records[k];
    var id := r.eventId;
    var row := st.events[id];
    assert st.records[k := r] == st.records && st.events[id := row] == st.events;
    assert Record(id, o.hash, Restated(r.performers, o.listing.performers), Restated(r.genres, o.listing.genres)) == r;
    PublishedForMembers(st.records, id, row, Performers);
    PublishedForMembers(st.records, id, row, Genres);
    assert forall x :: x in Facts(r, Performers) ==> x in PublishedFor(st.records, id, row, Performers);
    assert forall x :: x in Facts(r, Genres) ==> x in PublishedFor(st.records, id, row, Genres);
    SettledLabelsStay(row.performers, r.performers, PublishedFor(st.records, id, row, Performers));
    SettledLabelsStay(row.genres, r.genres, PublishedFor(st.records, id, row, Genres));
    assert row.(performers := row.performers, genres := row.genres) == row;
  }

  /** Against a stored row, which has no city, a context mismatch is a conflict of venue or address. */
  lemma {:induction false} MismatchIsConflict(env: Env, row: Listing, l: Listing)
    requires row.city == None
    ensures LocationContextMatches(env, row, l) <==> !PlaceConflict(env, row, l)
  {
  }

  lemma {:induction false} MergeKeepsTags(env: Env, row: Listing, s: Listing, x: string)
    requires Vocabulary(env) && StoredRow(env, row) && CanonicalLists(env, s)
    ensures x in row.tags || x in s.tags ==> x in MergeLists(row.tags, s.tags)
    ensures x in row.categories || x in s.categories ==>
              x in CategoriesV1(env, MergeLists(row.categories, s.categories))
  {
    CanonicalMembersAreFixed(row.tags, env.vibe);
    CanonicalMembersAreFixed(s.tags, env.vibe);
    MergeListsMembers(row.tags, s.tags);
    CanonicalMembersAreFixed(row.categories, env.category);
    CanonicalMembersAreFixed(s.categories, env.category);
    MergeListsMembers(row.categories, s.categories);
    MergeListsCanonical(row.categories, s.categories, env.category);
  }

  /** Vocabulary terms only accumulate, whoever has authority. */
  lemma {:induction false} UpdatedKeepsTerms(env: Env, row: Listing, s: Listing, replayed: bool, revised: bool)
    requires Vocabulary(env) && StoredRow(env, row) && CanonicalLists(env, s)
    ensures var after := Updated(env, row, s, replayed, revised);
            && (forall x :: x in row.tags || x in s.tags ==> x in after.tags)
            && (forall x :: x in row.categories || x in s.categories ==> x in after.categories)
  {
    StoredRowReadsBack(env, row);
    var after := Updated(env, row, s, replayed, revised);
    forall x
      ensures x in row.tags || x in s.tags ==> x in after.tags
      ensures x in row.categories || x in s.categories ==> x in after.categories
    {
      MergeKeepsTags(env, row, s, x);
    }
  }

  /** After a merge the row is as well placed as the observation, or the observation describes another place. */
  lemma {:induction false} UpdatedIsPlaced(env: Env, row: Listing, s: Listing, replayed: bool, revised: bool)
    requires StoredRow(env, row) && 0.0 <= s.confidence <= 1.0
    ensures var after := Updated(env, row, s, replayed, revised);
            s.confidence <= after.confidence || PlaceConflict(env, after, s)
  {
    StoredRowReadsBack(env, row);
    MismatchIsConflict(env, row, s);
  }

  lemma {:induction false} BaseIsEnriched(env: Env, st: Store, o: Observation, route: Route)
    requires Vocabulary(env) && WellStored(env, st) && Normalized(env, o)
    requires route.target.Some? ==> route.target.value in st.events
    ensures Enriched(env, Base(env, st, o, route), o.listing)
  {
    if route.target.Some? {
      var row := st.events[route.target.value];
      if IsSignificant(env, st, o, route) {
        UpdatedKeepsTerms(env, row, o.listing, route.replayed, route.revised);
        UpdatedIsPlaced(env, row, o.listing, route.replayed, route.revised);
      } else {
        StoredRowReadsBack(env, row);
        MismatchIsConflict(env, row, o.listing);
      }
    }
  }

  /** Recomputed labels are settled against the records they were computed from. */
  lemma {:induction false} RememberSettlesLabels(st: Store, id: nat, o: Observation, pp: seq<string>, pg: seq<string>)
    requires id in st.events && Stable(o.listing) && Remember(st, id, o, pp, pg).Ok?
    requires forall x :: x in pp ==> ShortLabel(x)
    requires forall x :: x in pg ==> ShortLabel(x)
    requires StoredFacts(Remember(st, id, o, pp, pg).value.store)
    ensures var after := Remember(st, id, o, pp, pg).value.store;
            && id in after.events && RowLabelsSettled(after.records, id, after.events[id])
            && RecordSettled(after.records[IdentityOf(o.listing)], o.listing)
  {
    var after := Remember(st, id, o, pp, pg).value.store;
    var k := IdentityOf(o.listing);
    var was := if k in st.records then st.records[k] else Record(id, "", [], []);
    var row := st.events[id];
    PublishedForMembers(after.records, id, row, Performers);
    PublishedForMembers(after.records, id, row, Genres);
    UpdateLabelsSettles(pp, was.performers, PublishedFor(after.records, id, row, Performers));
    UpdateLabelsSettles(pg, was.genres, PublishedFor(after.records, id, row, Genres));
    PublishedForSame(after.records, after.records, id, row, after.events[id], Performers);
    PublishedForSame(after.records, after.records, id, row, after.events[id], Genres);
  }

  lemma {:induction false} LandSettlesLabels(env: Env, st: Store, o: Observation, target: Option<nat>, row: Listing,
                                             significant: bool)
    requires target.Some? ==> target.value in st.events
    requires StoredLabels(st) && StoredFacts(st) && Normalized(env, o) && Stable(o.listing)
    requires target.None? ==> ShortRow(row)
    requires Land(st, o, target, row, significant).Ok?
    ensures var out := Land(st, o, target, row, significant).value;
            && out.id in out.store.events && RowLabelsSettled(out.store.records, out.id, out.store.events[out.id])
            && IdentityOf(o.listing) in out.store.records
            && RecordSettled(out.store.records[IdentityOf(o.listing)], o.listing)
  {
    var id := target.GetOr(st.nextId);
    var prior := if target.Some? then st.events[id] else row;
    var placed := Store(st.events[id := row], st.records, if target.Some? then st.nextId else st.nextId + 1);
    LandKeepsFacts(env, st, o, target, row, significant);
    assert ShortRow(prior);
    RememberSettlesLabels(placed, id, o, prior.performers, prior.genres);
  }

  /** Processing an observation with a stable identity settles it. */
  lemma {:induction false} ProcessSettles(env: Env, st: Store, o: Observation, scan: seq<nat>)
    requires Vocabulary(env) && Inv(env, st) && Normalized(env, o) && Stable(o.listing)
    ensures Process(env, st, o, scan).Ok?
    ensures Settled(env, Process(env, st, o, scan).value.store, o)
  {
    var route := FindExisting(env, st, o, scan);
    var row := Base(env, st, o, route);
    ProcessTouchesOneEvent(env, st, o, scan);
    BaseIsEnriched(env, st, o, route);
    BaseIsShort(env, st, o, route);
    LandSettlesLabels(env, st, o, route.target, row, IsSignificant(env, st, o, route));
    var out := Process(env, st, o, scan).value;
    EnrichedIgnoresLabels(env, out.store.events[out.id], row, o.listing);
  }

  lemma {:induction false} EnrichedIgnoresLabels(env: Env, a: Listing, b: Listing, l: Listing)
    requires Enriched(env, b, l) && SameButLabels(a, b)
    ensures Enriched(env, a, l)
  {
  }

  /**
   Replay is a no-op: from any reachable state, an observation with a stable
   identity that is processed again right after it was processed is skipped, and
   no event and no record changes.
   */
  lemma {:induction false} ReplayIsNoOp(env: Env, inputs: seq<Input>, o: Observation, scan: seq<nat>, again: seq<nat>)
    requires Vocabulary(env) && ValidRun(env, EMPTY, inputs) && Normalized(env, o) && Stable(o.listing)
    ensures var first := Process(env, Run(env, EMPTY, inputs), o, scan);
            first.Ok? && Process(env, first.value.store, o, again) ==
                Ok(Outcome(first.value.store, first.value.id, false, false))
  {
    var st := Run(env, EMPTY, inputs);
    RunKeepsInv(env, EMPTY, inputs);
    ProcessSettles(env, st, o, scan);
    ProcessKeepsInv(env, st, o, scan);
    ObserveRecords(env, st, Observe(o, scan));
    SettledIsSkipped(env, Process(env, st, o, scan).value.store, o, again);
  }

  /** A newly seen identity has no authority over the event it is matched to. */
  lemma {:induction false} FreshHasNoAuthority(st: Store, o: Observation, id: nat)
    requires Indexed(st) && id in st.events && Stable(o.listing) && IdentityOf(o.listing) !in st.records
    ensures !Authoritative(st.events[id], o.listing, false, false)
  {
    assert Stable(st.events[id]) ==> IdentityOf(st.events[id]) in st.records;
  }

  /** Text kept by a matching merge stays in the same normal form. */
  lemma {:induction false} ConflictSurvivesMerge(env: Env, row: Listing, s: Listing, l: Listing)
    requires row.city == None && PlaceConflict(env, row, l)
    requires !Authoritative(row, s, false, false)
    ensures var matches := LocationContextMatches(env, row, s);
            PlaceConflict(env, row.(venueName := MergedWhere(row.venueName, s.venueName, false, false, matches),
                                    rawAddress := MergedWhere(row.rawAddress, s.rawAddress, false, false, matches)), l)
  {
  }

  lemma {:induction false} FreshMergeKeepsEnriched(env: Env, row: Listing, s: Listing, l: Listing)
    requires Vocabulary(env) && StoredRow(env, row) && CanonicalLists(env, s) && 0.0 <= s.confidence <= 1.0
    requires !Authoritative(row, s, false, false) && Enriched(env, row, l)
    ensures Enriched(env, Updated(env, row, s, false, false), l)
  {
    StoredRowReadsBack(env, row);
    UpdatedKeepsTerms(env, row, s, false, false);
    if PlaceConflict(env, row, l) {
      ConflictSurvivesMerge(env, row, s, l);
    }
  }

  /** Seeing a new identity for the first time unsettles no observation already settled. */
  lemma {:induction false} FreshKeepsSettled(env: Env, st: Store, a: Observation, o: Observation, scan: seq<nat>)
    requires Vocabulary(env) && Inv(env, st) && Normalized(env, o) && Settled(env, st, a)
    requires Stable(o.listing) && IdentityOf(o.listing) !in st.records
    ensures Process(env, st, o, scan).Ok? && Settled(env, Process(env, st, o, scan).value.store, a)
  {
    var route := FindExisting(env, st, o, scan);
    ProcessTouchesOneEvent(env, st, o, scan);
    var out := Process(env, st, o, scan).value;
    var id := st.records[IdentityOf(a.listing)].eventId;
    FreshRowStaysSettled(env, st, a, o, scan);
    assert out.store.records[IdentityOf(a.listing)] == st.records[IdentityOf(a.listing)];
  }

  /** The event of a settled observation keeps its enrichment and its settled labels. */
  lemma {:induction false} FreshRowStaysSettled(env: Env, st: Store, a: Observation, o: Observation, scan: seq<nat>)
    requires Vocabulary(env) && Inv(env, st) && Normalized(env, o) && Settled(env, st, a)
    requires Stable(o.listing) && IdentityOf(o.listing) !in st.records
    requires Process(env, st, o, scan).Ok?
    requires Landed(st, o, FindExisting(env, st, o, scan).target, Base(env, st, o, FindExisting(env, st, o, scan)),
                    Process(env, st, o, scan).value)
    ensures var after := Process(env, st, o, scan).value.store;
            var id := st.records[IdentityOf(a.listing)].eventId;
            id in after.events && Enriched(env, after.events[id], a.listing)
            && RowLabelsSettled(after.records, id, after.events[id])
  {
    var route := FindExisting(env, st, o, scan);
    var out := Process(env, st, o, scan).value;
    var id := st.records[IdentityOf(a.listing)].eventId;
    if id == out.id {
      FreshBaseKeepsEnriched(env, st, a, o, route);
      LandSettlesLabels(env, st, o, route.target, Base(env, st, o, route), IsSignificant(env, st, o, route));
      EnrichedIgnoresLabels(env, out.store.events[id], Base(env, st, o, route), a.listing);
    } else {
      OtherLabelsStaySettled(st, o, out, id);
    }
  }

  lemma {:induction false} FreshBaseKeepsEnriched(env: Env, st: Store, a: Observation, o: Observation, route: Route)
    requires Vocabulary(env) && Indexed(st) && Normalized(env, o)
    requires Stable(o.listing) && IdentityOf(o.listing) !in st.records
    requires route.target.Some? && route.target.value in st.events && !route.replayed && !route.revised
    requires StoredRow(env, st.events[route.target.value]) && Enriched(env, st.events[route.target.value], a.listing)
    ensures Enriched(env, Base(env, st, o, route), a.listing)
  {
    var id := route.target.value;
    FreshHasNoAuthority(st, o, id);
    FreshMergeKeepsEnriched(env, st.events[id], o.listing, a.listing);
  }

  /** Labels of the events an observation does not touch stay settled. */
  lemma {:induction false} OtherLabelsStaySettled(st: Store, o: Observation, out: Outcome, id: nat)
    requires Stable(o.listing) && IdentityOf(o.listing) !in st.records
    requires OwnRecordOnly(st, out.store, out.id, o) && id != out.id
    requires id in st.events && id in out.store.events && out.store.events[id] == st.events[id]
    requires RowLabelsSettled(st.records, id, st.events[id])
    ensures RowLabelsSettled(out.store.records, id, out.store.events[id])
  {
    assert RecordsOf(st.records, id) == RecordsOf(out.store.records, id);
    PublishedForSame(st.records, out.store.records, id, st.events[id], st.events[id], Performers);
    PublishedForSame(st.records, out.store.records, id, st.events[id], st.events[id], Genres);
  }

  /** An observation the store has settled. */
  ghost predicate Ready(env: Env, st: Store, input: Input) {
    input.Observe? && Normalized(env, input.o) && Settled(env, st, input.o)
  }

  ghost predicate AllReady(env: Env, st: Store, batch: seq<Input>) {
    batch == [] || (AllReady(env, st, batch[..|batch| - 1]) && Ready(env, st, batch[|batch| - 1]))
  }

  /** A stable identity the store has never seen. */
  predicate Fresh(st: Store, input: Input) {
    input.Observe? && Stable(input.o.listing) && IdentityOf(input.o.listing) !in st.records
  }

  /** Observations of distinct stable identities, none of which the store has seen. */
  ghost predicate FreshBatch(st: Store, batch: seq<Input>) {
    batch == [] ||
    (FreshBatch(st, batch[..|batch| - 1]) && Fresh(st, batch[|batch| - 1])
     && IdentityOf(batch[|batch| - 1].o.listing) !in IdentitiesOf(batch[..|batch| - 1]))
  }

  function IdentitiesOf(batch: seq<Input>): set<Identity> {
    if batch == [] then {} else
      var input := batch[|batch| - 1];
      IdentitiesOf(batch[..|batch| - 1])
          + (if input.Observe? && Stable(input.o.listing) then {IdentityOf(input.o.listing)} else {})
  }

  lemma {:induction false} FreshKeepsAllReady(env: Env, st: Store, batch: seq<Input>, input: Input)
    requires Vocabulary(env) && Inv(env, st) && AllReady(env, st, batch)
    requires Fresh(st, input) && Normalized(env, input.o)
    ensures AllReady(env, Next(env, st, input), batch)
  {
    if batch != [] {
      FreshKeepsAllReady(env, st, batch[..|batch| - 1], input);
      FreshKeepsSettled(env, st, batch[|batch| - 1].o, input.o, input.scan);
    }
  }

  /** The first sight of an identity settles it. */
  lemma {:induction false} FreshBecomesReady(env: Env, st: Store, input: Input)
    requires Vocabulary(env) && Inv(env, st) && Fresh(st, input) && Normalized(env, input.o)
    ensures Ready(env, Next(env, st, input), input)
  {
    ProcessTouchesOneEvent(env, st, input.o, input.scan);
    ProcessSettles(env, st, input.o, input.scan);
  }

  /** The first pass adds the records of its batch and no others. */
  lemma {:induction false} FirstPassAddsRecords(env: Env, st: Store, batch: seq<Input>)
    requires Vocabulary(env) && Inv(env, st) && ValidRun(env, st, batch) && FreshBatch(st, batch)
    ensures Run(env, st, batch).records.Keys == st.records.Keys + IdentitiesOf(batch)
  {
    if batch != [] {
      var init, input := batch[..|batch| - 1], batch[|batch| - 1];
      FirstPassAddsRecords(env, st, init);
      RunKeepsInv(env, st, init);
      var before := Run(env, st, init);
      NextAddsRecord(env, before, input);
      assert Run(env, st, batch).records.Keys == before.records.Keys + {IdentityOf(input.o.listing)};
      assert IdentitiesOf(batch) == IdentitiesOf(init) + {IdentityOf(input.o.listing)};
    }
  }

  lemma {:induction false} NextAddsRecord(env: Env, st: Store, input: Input)
    requires Indexed(st) && input.Observe? && Stable(input.o.listing)
    ensures Next(env, st, input).records.Keys == st.records.Keys + {IdentityOf(input.o.listing)}
  {
    ProcessTouchesOneEvent(env, st, input.o, input.scan);
  }

  /** After the first pass every observation of the batch is settled. */
  lemma {:induction false} FirstPassSettles(env: Env, st: Store, batch: seq<Input>)
    requires Vocabulary(env) && Inv(env, st) && ValidRun(env, st, batch) && FreshBatch(st, batch)
    ensures AllReady(env, Run(env, st, batch), batch)
  {
    if batch != [] {
      var init, input := batch[..|batch| - 1], batch[|batch| - 1];
      FirstPassSettles(env, st, init);
      FirstPassAddsRecords(env, st, init);
      RunKeepsInv(env, st, init);
      FirstPassStep(env, Run(env, st, init), init, input);
    }
  }

  lemma {:induction false} FirstPassStep(env: Env, st: Store, init: seq<Input>, input: Input)
    requires Vocabulary(env) && Inv(env, st) && AllReady(env, st, init)
    requires Fresh(st, input) && Normalized(env, input.o)
    ensures AllReady(env, Next(env, st, input), init) && Ready(env, Next(env, st, input), input)
  {
    FreshKeepsAllReady(env, st, init, input);
    FreshBecomesReady(env, st, input);
  }

  /** The observation was neither inserted nor updated, and the store is untouched. */
  ghost predicate Skipped(env: Env, st: Store, input: Input) {
    && input.Observe?
    && var r := Process(env, st, input.o, input.scan);
    && r.Ok? && r.value.store == st && !r.value.inserted && !r.value.updated
  }

  lemma {:induction false} ReadyIsSkipped(env: Env, st: Store, ready: Input, input: Input)
    requires Inv(env, st) && Ready(env, st, ready) && input.Observe? && input.o == ready.o
    ensures Skipped(env, st, input) && Next(env, st, input) == st
  {
    SettledIsSkipped(env, st, input.o, input.scan);
  }

  /** The same observations, possibly with the rows listed in another order. */
  ghost predicate SameObservations(a: seq<Input>, b: seq<Input>) {
    |a| == |b| && forall i :: 0 <= i < |a| ==> b[i].Observe? && (a[i].Observe? ==> a[i].o == b[i].o)
  }

  lemma {:induction false} ReadyAt(env: Env, st: Store, batch: seq<Input>, i: nat)
    requires AllReady(env, st, batch) && i < |batch|
    ensures Ready(env, st, batch[i])
  {
    if i < |batch| - 1 {
      ReadyAt(env, st, batch[..|batch| - 1], i);
    }
  }

  lemma {:induction false} SettledInputIsSkipped(env: Env, st: Store, batch: seq<Input>, pass: seq<Input>, i: nat)
    requires Inv(env, st) && AllReady(env, st, batch) && SameObservations(batch, pass) && i < |pass|
    ensures Skipped(env, st, pass[i]) && Next(env, st, pass[i]) == st
  {
    ReadyAt(env, st, batch, i);
    ReadyIsSkipped(env, st, batch[i], pass[i]);
  }

  lemma {:induction false} StutteringRun(env: Env, st: Store, pass: seq<Input>)
    requires forall i :: 0 <= i < |pass| ==> Next(env, st, pass[i]) == st
    ensures Run(env, st, pass) == st
  {
    if pass != [] {
      var init := pass[..|pass| - 1];
      assert forall i :: 0 <= i < |init| ==> init[i] == pass[i];
      StutteringRun(env, st, init);
    }
  }

  /**
   A whole batch of distinct new identities can be run twice from any reachable
   state: whatever the first pass merged together, the second pass skips every
   observation and leaves the store exactly as the first pass left it.
   */
  lemma {:induction false} BatchReplayIsNoOp(env: Env, inputs: seq<Input>, first: seq<Input>, second: seq<Input>)
    requires Vocabulary(env) && ValidRun(env, EMPTY, inputs)
    requires ValidRun(env, Run(env, EMPTY, inputs), first) && FreshBatch(Run(env, EMPTY, inputs), first)
    requires SameObservations(first, second)
    ensures var after := Run(env, Run(env, EMPTY, inputs), first);
            && Run(env, after, second) == after
            && forall i :: 0 <= i < |second| ==> Skipped(env, after, second[i])
  {
    var st := Run(env, EMPTY, inputs);
    RunKeepsInv(env, EMPTY, inputs);
    RunKeepsInv(env, st, first);
    FirstPassSettles(env, st, first);
    var after := Run(env, st, first);
    forall i | 0 <= i < |second|
      ensures Skipped(env, after, second[i]) && Next(env, after, second[i]) == after
    {
      SettledInputIsSkipped(env, after, first, second, i);
    }
    StutteringRun(env, after, second);
  }
}
