/**
 The performers and genres of an event are a view over its source records. The
 store only patches the view, one provider at a time; over runs of clean labels
 the patched lists equal the view computed from scratch.
 */
module CatalogView {
  import opened Prelude
  import opened Lists
  import opened Text
  import opened Listings
  import opened Matching
  import opened Merging
  import opened Sorting
  import opened Ingest
  import opened Invariants
  import opened Replay

  /** The view from scratch: current facts of every record, owner first, deduplicated and capped. */
  function View(records: map<Identity, Record>, id: nat, owner: Listing, f: Field): seq<string> {
    CatalogLabels(MergeLists(PublishedFor(records, id, owner, f), []))
  }

  ghost predicate CleanFacts(r: Record, f: Field) {
    forall x :: x in Facts(r, f) ==> CleanLabel(x)
  }

  /** The event shows exactly its view, whatever its labels look like. */
  predicate ShownAt(st: Store, id: nat, f: Field)
    requires id in st.events
  {
    LabelsOf(st.events[id], f) == View(st.records, id, st.events[id], f)
  }

  predicate Shows(st: Store, id: nat, f: Field) {
    id in st.events && ShownAt(st, id, f)
  }

  ghost predicate ViewShown(st: Store, f: Field) {
    forall id :: id in st.events ==> ShownAt(st, id, f)
  }

  /** Every event shows exactly its view, and every recorded label is clean. */
  ghost predicate ShowsView(st: Store, f: Field) {
    (forall k :: k in st.records ==> CleanFacts(st.records[k], f)) && ViewShown(st, f)
  }

  /** Inherited labels that are still published add nothing. */
  lemma {:induction false} InheritedIsPublished(published: seq<string>, inherited: seq<string>)
    requires forall x :: x in inherited ==> x in published
    ensures CatalogLabels(MergeLists(published, inherited)) == CatalogLabels(MergeLists(published, []))
  {
    CatalogLabelsOfMerge(published, inherited);
    CatalogLabelsOfMerge(published, []);
    FilterMapConcat(published, inherited, ClipPresent);
    assert published + [] == published;
    FilterMapMembers(inherited, ClipPresent);
    forall y | y in Clips(inherited)
      ensures y in Clips(published)
    {
      var x :| x in inherited && ClipPresent(x) == Some(y);
      FilterMapHas(published, x, ClipPresent);
    }
    DedupeAbsorb(Clips(published), Clips(inherited));
  }

  /** A clean view lists only labels some record publishes, and all of them when the cap is not reached. */
  lemma {:induction false} ViewMembers(published: seq<string>)
    requires forall x :: x in published ==> CleanLabel(x)
    ensures forall x :: x in CatalogLabels(MergeLists(published, [])) ==> x in published
    ensures |Dedupe(published)| <= LABEL_COUNT ==>
              forall x :: x in CatalogLabels(MergeLists(published, [])) <==> x in published
  {
    CatalogLabelsOfMerge(published, []);
    assert published + [] == published;
    ClipsOfClean(published);
    DedupeSpec(published);
    TakeMembers(Dedupe(published), LABEL_COUNT);
  }

  function WasRecord(records: map<Identity, Record>, id: nat, o: Observation): Record
    requires Stable(o.listing)
  {
    if IdentityOf(o.listing) in records then records[IdentityOf(o.listing)] else Record(id, "", [], [])
  }

  /**
   One provider restates its facts: what it retracts leaves, what any record still
   lists stays, so a patched view is again the view.
   */
  lemma {:induction false} PatchedViewIsView(st: Store, id: nat, o: Observation, row: Listing, prior: seq<string>,
                                             f: Field)
    requires Stable(o.listing) && WasRecord(st.records, id, o).eventId == id
    requires forall k :: k in st.records ==> CleanFacts(st.records[k], f)
    requires forall x :: x in LabelsOf(o.listing, f) ==> CleanLabel(x)
    requires || (prior == LabelsOf(o.listing, f) && IdentityOf(o.listing) !in st.records)
             || exists owner :: prior == View(st.records, id, owner, f)
    ensures var record := Record(id, o.hash, Restated(WasRecord(st.records, id, o).performers, o.listing.performers),
                                 Restated(WasRecord(st.records, id, o).genres, o.listing.genres));
            var records := st.records[IdentityOf(o.listing) := record];
            && UpdateLabels(prior, Facts(WasRecord(st.records, id, o), f), PublishedFor(records, id, row, f)) ==
               View(records, id, row, f)
            && CleanFacts(record, f)
  {
    var k, was := IdentityOf(o.listing), WasRecord(st.records, id, o);
    var record := Record(id, o.hash, Restated(was.performers, o.listing.performers),
                         Restated(was.genres, o.listing.genres));
    var records := st.records[k := record];
    var published := PublishedFor(records, id, row, f);
    var inherited := Without(prior, Facts(was, f));
    WithoutMembers(prior, Facts(was, f));
    PublishedForMembers(records, id, row, f);
    assert Facts(record, f) == Restated(Facts(was, f), LabelsOf(o.listing, f));
    forall x | x in inherited
      ensures x in published
    {
      if prior == LabelsOf(o.listing, f) && k !in st.records {
        assert x in Facts(records[k], f);
      } else {
        var owner :| prior == View(st.records, id, owner, f);
        PublishedForMembers(st.records, id, owner, f);
        ViewMembers(PublishedFor(st.records, id, owner, f));
        var r :| r in st.records && st.records[r].eventId == id && x in Facts(st.records[r], f);
        assert r != k && records[r] == st.records[r];
      }
    }
    InheritedIsPublished(published, inherited);
  }

  /** A stable observation whose labels are clean. */
  ghost predicate CleanInput(input: Input, f: Field) {
    input.Observe? ==> Stable(input.o.listing) && forall x :: x in LabelsOf(input.o.listing, f) ==> CleanLabel(x)
  }

  /** What an event shows depends only on its own records and owner. */
  lemma {:induction false} OtherViewsStay(before: map<Identity, Record>, after: map<Identity, Record>, k: Identity,
                                          id: nat, row: Listing, f: Field)
    requires after.Keys == before.Keys + {k}
    requires forall other :: other in before && other != k ==> after[other] == before[other]
    requires k in after && after[k].eventId != id && (k in before ==> before[k].eventId != id)
    ensures View(after, id, row, f) == View(before, id, row, f)
  {
    assert RecordsOf(before, id) == RecordsOf(after, id);
    PublishedForSame(after, before, id, row, row, f);
  }

  lemma {:induction false} RememberShowsView(st: Store, id: nat, o: Observation, pp: seq<string>, pg: seq<string>,
                                             f: Field)
    requires id in st.events && Stable(o.listing) && WasRecord(st.records, id, o).eventId == id
    requires forall k :: k in st.records ==> CleanFacts(st.records[k], f)
    requires forall x :: x in LabelsOf(o.listing, f) ==> CleanLabel(x)
    requires var prior := if f == Performers then pp else pg;
             || (prior == LabelsOf(o.listing, f) && IdentityOf(o.listing) !in st.records)
             || exists owner :: prior == View(st.records, id, owner, f)
    ensures var r := Remember(st, id, o, pp, pg);
            && r.Ok?
            && var after := r.value.store;
            && LabelsOf(after.events[id], f) == View(after.records, id, after.events[id], f)
            && CleanFacts(after.records[IdentityOf(o.listing)], f)
  {
    var prior := if f == Performers then pp else pg;
    PatchedViewIsView(st, id, o, st.events[id], prior, f);
    var after := Remember(st, id, o, pp, pg).value.store;
    PublishedForSame(after.records, after.records, id, st.events[id], after.events[id], f);
  }

  lemma {:induction false} LandShowsView(env: Env, st: Store, o: Observation, target: Option<nat>, row: Listing,
                                         significant: bool, f: Field)
    requires target.Some? ==> target.value in st.events
    requires Indexed(st) && ShowsView(st, f) && Stable(o.listing)
    requires forall x :: x in LabelsOf(o.listing, f) ==> CleanLabel(x)
    requires target.None? ==> LabelsOf(row, f) == LabelsOf(o.listing, f)
    requires IdentityOf(o.listing) in st.records ==> target == Some(st.records[IdentityOf(o.listing)].eventId)
    requires Land(st, o, target, row, significant).Ok?
    requires Landed(st, o, target, row, Land(st, o, target, row, significant).value)
    ensures ShowsView(Land(st, o, target, row, significant).value.store, f)
  {
    var id := target.GetOr(st.nextId);
    var prior := if target.Some? then st.events[id] else row;
    var placed := Store(st.events[id := row], st.records, if target.Some? then st.nextId else st.nextId + 1);
    assert target.Some? ==> ShownAt(st, id, f);
    assert target.Some? ==> LabelsOf(prior, f) == View(st.records, id, st.events[id], f);
    RememberShowsView(placed, id, o, prior.performers, prior.genres, f);
    LandedShowsView(st, o, target, row, Land(st, o, target, row, significant).value, f);
  }

  lemma {:induction false} LandedShowsView(st: Store, o: Observation, target: Option<nat>, row: Listing, out: Outcome,
                                           f: Field)
    requires ShowsView(st, f) && Stable(o.listing) && FreshId(st)
    requires IdentityOf(o.listing) in st.records ==> st.records[IdentityOf(o.listing)].eventId == out.id
    requires Landed(st, o, target, row, out)
    requires out.id in out.store.events && ShownAt(out.store, out.id, f)
    requires CleanFacts(out.store.records[IdentityOf(o.listing)], f)
    ensures ShowsView(out.store, f)
  {
    forall id | id in out.store.events && id != out.id
      ensures ShownAt(out.store, id, f)
    {
      UntouchedShows(st, o, target, row, out, id, f);
    }
  }

  lemma {:induction false} NextShowsView(env: Env, st: Store, input: Input, f: Field)
    requires Indexed(st) && ShowsView(st, f) && CleanInput(input, f)
    ensures ShowsView(Next(env, st, input), f)
  {
    match input
    case Observe(o, scan) => ProcessShowsView(env, st, o, scan, f);
    case Refused(_) =>
    case Lifecycle(cutoff) => MarkPastShowsView(st, cutoff, f);
  }

  lemma {:induction false} ProcessShowsView(env: Env, st: Store, o: Observation, scan: seq<nat>, f: Field)
    requires Indexed(st) && ShowsView(st, f) && CleanInput(Observe(o, scan), f)
    ensures Process(env, st, o, scan).Ok? && ShowsView(Process(env, st, o, scan).value.store, f)
  {
    var route := FindExisting(env, st, o, scan);
    ProcessTouchesOneEvent(env, st, o, scan);
    RecordsDecideOwnership(st, o.listing);
    LandShowsView(env, st, o, route.target, Base(env, st, o, route), IsSignificant(env, st, o, route), f);
  }

  lemma {:induction false} MarkPastShowsView(st: Store, cutoff: int, f: Field)
    requires ShowsView(st, f)
    ensures ShowsView(MarkPast(st, cutoff), f)
  {
    forall id | id in st.events
      ensures ShownAt(MarkPast(st, cutoff), id, f)
    {
      MarkPastShows(st, cutoff, id, f);
    }
  }

  ghost predicate CleanRun(inputs: seq<Input>, f: Field) {
    inputs == [] || (CleanRun(inputs[..|inputs| - 1], f) && CleanInput(inputs[|inputs| - 1], f))
  }

  /**
   Over every run of clean, stable observations from an empty store, each event's
   label list is the from-scratch view of its source records.
   */
  lemma {:induction false} LabelsAreTheView(env: Env, inputs: seq<Input>, f: Field)
    requires Vocabulary(env) && ValidRun(env, EMPTY, inputs) && CleanRun(inputs, f)
    ensures ShowsView(Run(env, EMPTY, inputs), f)
  {
    if inputs != [] {
      var init := inputs[..|inputs| - 1];
      LabelsAreTheView(env, init, f);
      RunKeepsInv(env, EMPTY, init);
      NextShowsView(env, Run(env, EMPTY, init), inputs[|inputs| - 1], f);
    }
  }

  /**
   Below the cap, an event shows a label exactly when one of its providers
   currently lists it: retracted labels disappear, shared ones stay.
   */
  lemma {:induction false} LabelShownIffListed(env: Env, inputs: seq<Input>, f: Field, id: nat, x: string)
    requires Vocabulary(env) && ValidRun(env, EMPTY, inputs) && CleanRun(inputs, f)
    requires var st := Run(env, EMPTY, inputs);
             id in st.events && |Dedupe(PublishedFor(st.records, id, st.events[id], f))| <= LABEL_COUNT
    ensures var st := Run(env, EMPTY, inputs);
            x in LabelsOf(st.events[id], f) <==>
            exists k :: k in st.records && st.records[k].eventId == id && x in Facts(st.records[k], f)
  {
    var st := Run(env, EMPTY, inputs);
    LabelsAreTheView(env, inputs, f);
    PublishedForMembers(st.records, id, st.events[id], f);
    ViewMembers(PublishedFor(st.records, id, st.events[id], f));
  }

  // ---------- exactly when a patch shows the view ----------

  /**
   Every shown label is taken off by name or is still published as it is clipped, unless
   the published labels fill the cap.
   */
  ghost predicate NothingLeftOver(prior: seq<string>, retracted: seq<string>, published: seq<string>) {
    || |Dedupe(Clips(published))| >= LABEL_COUNT
    || forall y :: y in prior && y !in retracted && ClipPresent(y).Some? ==> ClipPresent(y).value in Clips(published)
  }

  /** Patching a list gives the list of what is published now exactly when nothing is left over. */
  lemma {:induction false} PatchIsExact(prior: seq<string>, retracted: seq<string>, published: seq<string>)
    ensures UpdateLabels(prior, retracted, published) == CatalogLabels(MergeLists(published, []))
       <==> NothingLeftOver(prior, retracted, published)
  {
    var inherited := Without(prior, retracted);
    WithoutMembers(prior, retracted);
    CatalogLabelsOfMerge(published, inherited);
    CatalogLabelsOfMerge(published, []);
    assert published + [] == published;
    FilterMapConcat(published, inherited, ClipPresent);
    CappedAppend(Clips(published), Clips(inherited), LABEL_COUNT);
    ClipsCovered(prior, retracted, Clips(published));
  }

  lemma {:induction false} ClipsCovered(prior: seq<string>, retracted: seq<string>, shown: seq<string>)
    ensures (forall z :: z in Clips(Without(prior, retracted)) ==> z in shown)
       <==> forall y :: y in prior && y !in retracted && ClipPresent(y).Some? ==> ClipPresent(y).value in shown
  {
    var inherited := Without(prior, retracted);
    WithoutMembers(prior, retracted);
    FilterMapMembers(inherited, ClipPresent);
    forall y | y in prior && y !in retracted && ClipPresent(y).Some?
      ensures ClipPresent(y).value in Clips(inherited)
    {
      FilterMapHas(inherited, y, ClipPresent);
    }
  }

  /** Appending shows under a cap exactly when the cap is not full and something new is appended. */
  lemma {:induction false} CappedAppend(c: seq<string>, extra: seq<string>, n: nat)
    ensures Take(Dedupe(c + extra), n) == Take(Dedupe(c), n) <==> |Dedupe(c)| >= n || forall y :: y in extra ==> y in c
  {
    DedupePrefix(c, extra);
    DedupeSpec(c);
    DedupeSpec(c + extra);
    var d, all := Dedupe(c), Dedupe(c + extra);
    if forall y :: y in extra ==> y in c {
      DedupeAbsorb(c, extra);
    } else {
      var y :| y in extra && y !in c;
      assert y in all && y !in d;
      assert all[..|d|] == d;
      assert |all| == |d| ==> all == d;
      if |d| < n {
        assert |Take(all, n)| > |Take(d, n)|;
      } else {
        assert Take(all, n) == Take(d, n);
      }
    }
  }

  /** The records once the observation has restated its provider's facts about event `id`. */
  function RestatedRecords(records: map<Identity, Record>, id: nat, o: Observation): map<Identity, Record>
    requires Stable(o.listing)
  {
    var was := WasRecord(records, id, o);
    records[IdentityOf(o.listing) :=
      Record(id, o.hash, Restated(was.performers, o.listing.performers), Restated(was.genres, o.listing.genres))]
  }

  /** What the store and the observation say before the call: a new event, or one the patch leaves nothing over on. */
  ghost predicate KeepsView(env: Env, st: Store, o: Observation, scan: seq<nat>, f: Field)
    requires Stable(o.listing)
  {
    var route := FindExisting(env, st, o, scan);
    route.target.None? ||
    var id := route.target.value;
    NothingLeftOver(LabelsOf(st.events[id], f), Facts(WasRecord(st.records, id, o), f),
                    PublishedFor(RestatedRecords(st.records, id, o), id, Base(env, st, o, route), f))
  }

  lemma {:induction false} RememberPatches(st: Store, id: nat, o: Observation, pp: seq<string>, pg: seq<string>,
                                           f: Field)
    requires id in st.events && Stable(o.listing) && WasRecord(st.records, id, o).eventId == id
    ensures var r := Remember(st, id, o, pp, pg);
            && r.Ok? && id in r.value.store.events && r.value.store.records == RestatedRecords(st.records, id, o)
            && LabelsOf(r.value.store.events[id], f) ==
               UpdateLabels(if f == Performers then pp else pg, Facts(WasRecord(st.records, id, o), f),
                            PublishedFor(RestatedRecords(st.records, id, o), id, st.events[id], f))
            && View(RestatedRecords(st.records, id, o), id, r.value.store.events[id], f) ==
               CatalogLabels(MergeLists(PublishedFor(RestatedRecords(st.records, id, o), id, st.events[id], f), []))
  {
    var after := Remember(st, id, o, pp, pg).value.store;
    PublishedForSame(after.records, after.records, id, st.events[id], after.events[id], f);
  }

  /** A list patched into the store shows the view exactly when nothing is left over. */
  lemma {:induction false} RememberShowsViewExactly(st: Store, id: nat, o: Observation, pp: seq<string>,
                                                    pg: seq<string>, f: Field)
    requires id in st.events && Stable(o.listing) && WasRecord(st.records, id, o).eventId == id
    ensures var r := Remember(st, id, o, pp, pg);
            && r.Ok? && id in r.value.store.events
            && (ShownAt(r.value.store, id, f)
                <==> NothingLeftOver(if f == Performers then pp else pg, Facts(WasRecord(st.records, id, o), f),
                                     PublishedFor(RestatedRecords(st.records, id, o), id, st.events[id], f)))
  {
    RememberPatches(st, id, o, pp, pg, f);
    PatchIsExact(if f == Performers then pp else pg, Facts(WasRecord(st.records, id, o), f),
                 PublishedFor(RestatedRecords(st.records, id, o), id, st.events[id], f));
  }

  /** The labels a new event comes with are all published, so it shows its view from the start. */
  lemma {:induction false} RememberShowsNewEvent(st: Store, id: nat, o: Observation, pp: seq<string>, pg: seq<string>,
                                                 f: Field)
    requires id in st.events && Stable(o.listing) && IdentityOf(o.listing) !in st.records
    requires (if f == Performers then pp else pg) == LabelsOf(o.listing, f)
    ensures var r := Remember(st, id, o, pp, pg);
            r.Ok? && id in r.value.store.events && ShownAt(r.value.store, id, f)
  {
    var prior := LabelsOf(o.listing, f);
    var records := RestatedRecords(st.records, id, o);
    var published := PublishedFor(records, id, st.events[id], f);
    RememberPatches(st, id, o, pp, pg, f);
    PublishedForMembers(records, id, st.events[id], f);
    WithoutMembers(prior, []);
    forall x | x in Without(prior, [])
      ensures x in published
    {
      assert x in Facts(records[IdentityOf(o.listing)], f);
    }
    InheritedIsPublished(published, Without(prior, []));
  }

  lemma {:induction false} InsertShowsView(st: Store, o: Observation, row: Listing, f: Field)
    requires Stable(o.listing) && IdentityOf(o.listing) !in st.records && LabelsOf(row, f) == LabelsOf(o.listing, f)
    ensures var r := Land(st, o, None, row, false);
            r.Ok? && r.value.id in r.value.store.events && ShownAt(r.value.store, r.value.id, f)
  {
    var placed := Store(st.events[st.nextId := row], st.records, st.nextId + 1);
    RememberShowsNewEvent(placed, st.nextId, o, row.performers, row.genres, f);
  }

  lemma {:induction false} LandRemembers(st: Store, o: Observation, id: nat, row: Listing, significant: bool)
    requires id in st.events
    ensures var placed := Store(st.events[id := row], st.records, st.nextId);
            var landed := Land(st, o, Some(id), row, significant);
            var r := Remember(placed, id, o, st.events[id].performers, st.events[id].genres);
            r.Ok? ==> landed.Ok? && landed.value.id == id && landed.value.store == r.value.store
  {
  }

  lemma {:induction false} UpdateShowsViewExactly(st: Store, o: Observation, id: nat, row: Listing, significant: bool,
                                                  f: Field)
    requires id in st.events && Stable(o.listing) && WasRecord(st.records, id, o).eventId == id
    ensures var r := Land(st, o, Some(id), row, significant);
            && r.Ok? && r.value.id == id && id in r.value.store.events
            && (ShownAt(r.value.store, id, f)
                <==> NothingLeftOver(LabelsOf(st.events[id], f), Facts(WasRecord(st.records, id, o), f),
                                     PublishedFor(RestatedRecords(st.records, id, o), id, row, f)))
  {
    var was := st.events[id];
    var placed := Store(st.events[id := row], st.records, st.nextId);
    assert LabelsOf(was, f) == if f == Performers then was.performers else was.genres;
    RememberShowsViewExactly(placed, id, o, was.performers, was.genres, f);
    LandRemembers(st, o, id, row, significant);
  }

  /**
   One observation, from any reachable store: whatever its event showed before, it
   shows its view afterwards exactly when the observation opened it or left nothing
   over.
   */
  lemma {:induction false} ProcessShowsViewExactly(env: Env, st: Store, o: Observation, scan: seq<nat>, f: Field)
    requires Indexed(st) && Stable(o.listing)
    ensures Process(env, st, o, scan).Ok?
    ensures var out := Process(env, st, o, scan).value;
            out.id in out.store.events && (ShownAt(out.store, out.id, f) <==> KeepsView(env, st, o, scan, f))
  {
    var route := FindExisting(env, st, o, scan);
    var row := Base(env, st, o, route);
    RecordsDecideOwnership(st, o.listing);
    if route.target.None? {
      InsertShowsView(st, o, row, f);
    } else {
      UpdateShowsViewExactly(st, o, route.target.value, row, IsSignificant(env, st, o, route), f);
    }
  }

  /** The event an input lands on, if it lands. */
  function EventOf(env: Env, st: Store, input: Input): Option<nat> {
    match input
    case Observe(o, scan) => (var r := Process(env, st, o, scan); if r.Ok? then Some(r.value.id) else None)
    case _ => None
  }

  /** What keeps the view through one input: only an observation can disturb it. */
  ghost predicate InputKeepsView(env: Env, st: Store, input: Input, f: Field) {
    input.Observe? ==> Stable(input.o.listing) && KeepsView(env, st, input.o, input.scan, f)
  }

  /**
   One step from any reachable store: the event observed shows its view exactly
   when the observation leaves nothing over on it, every other event exactly when
   it did before.
   */
  lemma {:induction false} NextShowsViewExactly(env: Env, st: Store, input: Input, id: nat, f: Field)
    requires Indexed(st) && (EventOf(env, st, input) == Some(id) ==> Stable(input.o.listing))
    ensures Shows(Next(env, st, input), id, f) <==>
            if EventOf(env, st, input) == Some(id) then InputKeepsView(env, st, input, f) else Shows(st, id, f)
  {
    EventsAfterInput(env, st, input, id);
    match input
    case Observe(o, scan) =>
      ProcessTouchesOneEvent(env, st, o, scan);
      if EventOf(env, st, input) == Some(id) {
        ProcessShowsViewExactly(env, st, o, scan, f);
      } else if id in st.events {
        var route := FindExisting(env, st, o, scan);
        UntouchedShows(st, o, route.target, Base(env, st, o, route), Process(env, st, o, scan).value, id, f);
      }
    case Refused(_) =>
    case Lifecycle(cutoff) =>
      if id in st.events { MarkPastShows(st, cutoff, id, f); }
  }

  lemma {:induction false} UntouchedShows(st: Store, o: Observation, target: Option<nat>, row: Listing, out: Outcome,
                                          id: nat, f: Field)
    requires Landed(st, o, target, row, out) && id in out.store.events && id != out.id
    ensures id in st.events && (ShownAt(out.store, id, f) <==> ShownAt(st, id, f))
  {
    if Stable(o.listing) {
      OtherViewsStay(st.records, out.store.records, IdentityOf(o.listing), id, st.events[id], f);
    }
  }

  lemma {:induction false} MarkPastShows(st: Store, cutoff: int, id: nat, f: Field)
    requires id in st.events
    ensures ShownAt(MarkPast(st, cutoff), id, f) <==> ShownAt(st, id, f)
  {
    var after := MarkPast(st, cutoff);
    PublishedForSame(st.records, after.records, id, st.events[id], after.events[id], f);
  }

  /** The stores a run passes through and the events its inputs land on. */
  ghost predicate Follows(env: Env, inputs: seq<Input>, states: nat -> Store, landings: seq<Option<nat>>) {
    |landings| == |inputs| && forall i: nat :: i < |inputs| ==> FollowsAt(env, inputs, states, landings, i)
  }

  ghost predicate FollowsAt(env: Env, inputs: seq<Input>, states: nat -> Store, landings: seq<Option<nat>>, i: nat) {
    && i < |inputs| == |landings| && Indexed(states(i)) && states(i + 1) == Next(env, states(i), inputs[i])
    && landings[i] == EventOf(env, states(i), inputs[i])
  }

  /** Input `at` lands on event `id`, and none between it and input `end` does. */
  predicate LandedLast(landings: seq<Option<nat>>, at: nat, end: nat, id: nat) {
    at < end <= |landings| && landings[at] == Some(id) && forall j :: at < j < end ==> landings[j] != Some(id)
  }

  /** The store before each input of a run from the empty store, and the one after the last. */
  function StatesOf(env: Env, inputs: seq<Input>): nat -> Store {
    (n: nat) => if n <= |inputs| then Run(env, EMPTY, inputs[..n]) else EMPTY
  }

  function LandingsOf(env: Env, inputs: seq<Input>): seq<Option<nat>> {
    seq(|inputs|, i requires 0 <= i < |inputs| => EventOf(env, Run(env, EMPTY, inputs[..i]), inputs[i]))
  }

  lemma {:induction false} RunFollows(env: Env, inputs: seq<Input>)
    requires Vocabulary(env) && ValidRun(env, EMPTY, inputs)
    ensures Follows(env, inputs, StatesOf(env, inputs), LandingsOf(env, inputs))
  {
    forall i: nat | i < |inputs|
      ensures FollowsAt(env, inputs, StatesOf(env, inputs), LandingsOf(env, inputs), i)
    {
      PrefixIsIndexed(env, inputs, i);
      PrefixStep(env, inputs, i);
    }
  }

  lemma {:induction false} StatesAreRuns(env: Env, inputs: seq<Input>)
    ensures StatesOf(env, inputs)(|inputs|) == Run(env, EMPTY, inputs)
    ensures forall n: nat :: n <= |inputs| ==> StatesOf(env, inputs)(n) == Run(env, EMPTY, inputs[..n])
  {
    assert inputs[..|inputs|] == inputs;
  }

  lemma {:induction false} PrefixStep(env: Env, inputs: seq<Input>, n: nat)
    requires n < |inputs|
    ensures Run(env, EMPTY, inputs[..n + 1]) == Next(env, Run(env, EMPTY, inputs[..n]), inputs[n])
  {
    assert inputs[..n + 1][..n] == inputs[..n];
  }

  lemma {:induction false} PrefixIsIndexed(env: Env, inputs: seq<Input>, n: nat)
    requires Vocabulary(env) && ValidRun(env, EMPTY, inputs) && n <= |inputs|
    ensures Indexed(Run(env, EMPTY, inputs[..n]))
  {
    ValidPrefix(env, EMPTY, inputs, n);
    RunKeepsInv(env, EMPTY, inputs[..n]);
  }

  lemma {:induction false} LastLandingExists(env: Env, inputs: seq<Input>, states: nat -> Store,
                                             landings: seq<Option<nat>>, end: nat, id: nat)
    returns (at: nat)
    requires Follows(env, inputs, states, landings) && end <= |inputs| && states(0) == EMPTY && id in states(end).events
    ensures LandedLast(landings, at, end, id)
  {
    var n := end - 1;
    assert FollowsAt(env, inputs, states, landings, n);
    if landings[n] == Some(id) {
      at := n;
    } else {
      EventsAfterInput(env, states(n), inputs[n], id);
      at := LastLandingExists(env, inputs, states, landings, n, id);
    }
  }

  /** What each landing decides and nothing else changes, the last landing decides. */
  lemma {:induction false} LastLandingDecides(
    landings: seq<Option<nat>>, shown: nat -> bool, kept: nat -> bool, at: nat, end: nat, id: nat)
    requires LandedLast(landings, at, end, id)
    requires forall n: nat {:trigger landings[n]} :: at <= n < end ==>
               (shown(n + 1) <==> if landings[n] == Some(id) then kept(n) else shown(n))
    ensures shown(end) <==> kept(at)
  {
    assert end - 1 > at ==> landings[end - 1] != Some(id);
    if at < end - 1 {
      LastLandingDecides(landings, shown, kept, at, end - 1, id);
    }
  }

  lemma {:induction false} EventsAfterInput(env: Env, st: Store, input: Input, id: nat)
    requires Indexed(st)
    ensures id in Next(env, st, input).events <==> id in st.events || EventOf(env, st, input) == Some(id)
  {
    if input.Observe? {
      ProcessTouchesOneEvent(env, st, input.o, input.scan);
    }
  }

  /** In which of the states the event shows its view, and which inputs leave nothing over. */
  ghost function ShownIn(states: nat -> Store, id: nat, f: Field): nat -> bool {
    (n: nat) => Shows(states(n), id, f)
  }

  ghost function KeptBy(env: Env, inputs: seq<Input>, states: nat -> Store, f: Field): nat -> bool {
    (n: nat) => n < |inputs| && InputKeepsView(env, states(n), inputs[n], f)
  }

  lemma {:induction false} InputDecides(
    env: Env, inputs: seq<Input>, states: nat -> Store, landings: seq<Option<nat>>, n: nat, id: nat, f: Field)
    requires FollowsAt(env, inputs, states, landings, n) && (landings[n] == Some(id) ==> Stable(inputs[n].o.listing))
    ensures ShownIn(states, id, f)(n + 1) <==>
            if landings[n] == Some(id) then KeptBy(env, inputs, states, f)(n) else ShownIn(states, id, f)(n)
  {
    NextShowsViewExactly(env, states(n), inputs[n], id, f);
  }

  lemma {:induction false} LastLandingShows(
    env: Env, inputs: seq<Input>, states: nat -> Store, landings: seq<Option<nat>>, at: nat, id: nat, f: Field)
    requires Follows(env, inputs, states, landings) && LandedLast(landings, at, |inputs|, id)
    requires inputs[at].Observe? && Stable(inputs[at].o.listing)
    ensures Shows(states(|inputs|), id, f) <==> InputKeepsView(env, states(at), inputs[at], f)
  {
    forall n: nat {:trigger landings[n]} | at <= n < |inputs|
      ensures ShownIn(states, id, f)(n + 1) <==>
              if landings[n] == Some(id) then KeptBy(env, inputs, states, f)(n) else ShownIn(states, id, f)(n)
    {
      assert FollowsAt(env, inputs, states, landings, n);
      assert landings[n] == Some(id) ==> n == at;
      InputDecides(env, inputs, states, landings, n, id, f);
    }
    LastLandingDecides(landings, ShownIn(states, id, f), KeptBy(env, inputs, states, f), at, |inputs|, id);
  }

  /** Every event of a reachable store has an observation that landed on it last. */
  lemma {:induction false} EventWasLandedOn(env: Env, inputs: seq<Input>, id: nat) returns (at: nat)
    requires Vocabulary(env) && ValidRun(env, EMPTY, inputs) && id in Run(env, EMPTY, inputs).events
    ensures LandedLast(LandingsOf(env, inputs), at, |inputs|, id) && inputs[at].Observe?
  {
    RunFollows(env, inputs);
    StatesAreRuns(env, inputs);
    assert inputs[..0] == [];
    at := LastLandingExists(env, inputs, StatesOf(env, inputs), LandingsOf(env, inputs), |inputs|, id);
  }

  /**
   Over any run: an event shows its view exactly when the last observation that
   landed on it opened it or left nothing over. What earlier ones left over does not
   matter.
   */
  lemma {:induction false} EventShowsViewExactly(env: Env, inputs: seq<Input>, at: nat, id: nat, f: Field)
    requires Vocabulary(env) && ValidRun(env, EMPTY, inputs)
    requires LandedLast(LandingsOf(env, inputs), at, |inputs|, id)
    requires inputs[at].Observe? && Stable(inputs[at].o.listing)
    ensures Shows(Run(env, EMPTY, inputs), id, f) <==>
            InputKeepsView(env, Run(env, EMPTY, inputs[..at]), inputs[at], f)
  {
    RunFollows(env, inputs);
    StatesAreRuns(env, inputs);
    LastLandingShows(env, inputs, StatesOf(env, inputs), LandingsOf(env, inputs), at, id, f);
  }

  /** Every observation of the run carries a stable identity. */
  predicate StableRun(inputs: seq<Input>) {
    inputs == [] || (StableRun(inputs[..|inputs| - 1])
                     && (inputs[|inputs| - 1].Observe? ==> Stable(inputs[|inputs| - 1].o.listing)))
  }

  /** The view is shown in every state the run passes through. */
  ghost predicate AlwaysShown(env: Env, inputs: seq<Input>, f: Field) {
    ViewShown(Run(env, EMPTY, inputs), f) && (inputs != [] ==> AlwaysShown(env, inputs[..|inputs| - 1], f))
  }

  /** No observation of the run leaves anything over. */
  ghost predicate AlwaysKept(env: Env, inputs: seq<Input>, f: Field) {
    inputs == [] ||
    (AlwaysKept(env, inputs[..|inputs| - 1], f)
     && InputKeepsView(env, Run(env, EMPTY, inputs[..|inputs| - 1]), inputs[|inputs| - 1], f))
  }

  /**
   Over any run of stable observations from an empty store, whatever their labels:
   the view is shown throughout exactly when no observation leaves a label over.
   */
  lemma {:induction false} RunShowsViewExactly(env: Env, inputs: seq<Input>, f: Field)
    requires Vocabulary(env) && ValidRun(env, EMPTY, inputs) && StableRun(inputs)
    ensures AlwaysShown(env, inputs, f) <==> AlwaysKept(env, inputs, f)
  {
    if inputs != [] {
      var init := inputs[..|inputs| - 1];
      RunShowsViewExactly(env, init, f);
      RunKeepsInv(env, EMPTY, init);
      if AlwaysShown(env, init, f) {
        ViewsStayShown(env, Run(env, EMPTY, init), inputs[|inputs| - 1], f);
      }
    }
  }

  /** Where every view was shown, the event observed decides whether every view still is. */
  lemma {:induction false} ViewsStayShown(env: Env, st: Store, input: Input, f: Field)
    requires Indexed(st) && ViewShown(st, f) && (input.Observe? ==> Stable(input.o.listing))
    ensures ViewShown(Next(env, st, input), f) <==> InputKeepsView(env, st, input, f)
  {
    var after := Next(env, st, input);
    forall id | id in after.events
      ensures ShownAt(after, id, f) <==> (EventOf(env, st, input) == Some(id) ==> InputKeepsView(env, st, input, f))
    {
      NextShowsViewExactly(env, st, input, id, f);
      EventsAfterInput(env, st, input, id);
    }
    if input.Observe? {
      ProcessTouchesOneEvent(env, st, input.o, input.scan);
      assert EventOf(env, st, input) == Some(Process(env, st, input.o, input.scan).value.id);
    }
  }

  /**
   Clipping at 200 characters leaves an unclean label exactly when it cuts a longer
   label right after whitespace.
   */
  lemma {:induction false} ClipIsUncleanExactly(raw: string)
    requires Strip(raw) != ""
    ensures !CleanLabel(ClipPresent(raw).value) <==>
            |Strip(raw)| > LABEL_LENGTH && IsSpace(Strip(raw)[LABEL_LENGTH - 1])
  {
    StripTrims(raw);
  }

  /** What an event shows once its only provider lists `x`. */
  lemma {:induction false} ShownAtFirst(x: string)
    requires ShortLabel(x)
    ensures UpdateLabels([x], [], [x]) == [Strip(x)]
  {
    OneLabel(x, x);
    CatalogLabelsOfMerge([x], [x]);
    assert Without([x], []) == [x] by { assert [x][..0] == []; }
  }

  /** A clean label is taken off by name. */
  lemma {:induction false} CleanIsRetracted(x: string, y: string)
    requires ShortLabel(y) && CleanLabel(x)
    ensures UpdateLabels([x], [x], [y]) == [Strip(y)]
  {
    assert Without([x], [x]) == [] by { assert [x][..0] == []; }
    OneLabelView(y);
  }

  /** An unclean label is stored under another spelling, so taking it off by name misses it. */
  lemma {:induction false} UncleanIsKept(x: string, y: string)
    requires ShortLabel(x) && ShortLabel(y) && !CleanLabel(x)
    ensures UpdateLabels([Strip(x)], [x], [y]) == if Strip(x) == Strip(y) then [Strip(y)] else [Strip(y), Strip(x)]
  {
    StripTrims(x);
    var cx := Strip(x);
    assert Without([cx], [x]) == [cx] by { assert [cx][..0] == []; }
    OneLabel(y, cx);
    CatalogLabelsOfMerge([y], [cx]);
  }

  /** What an event shows after its only provider lists `x` and then only `y`. */
  lemma {:induction false} ShownAfterRetraction(x: string, y: string)
    requires ShortLabel(x) && ShortLabel(y)
    ensures UpdateLabels([Strip(x)], [x], [y]) ==
            if CleanLabel(x) || Strip(x) == Strip(y) then [Strip(y)] else [Strip(y), Strip(x)]
  {
    StripTrims(x);
    if CleanLabel(x) {
      CleanIsRetracted(x, y);
    } else {
      UncleanIsKept(x, y);
    }
  }

  lemma {:induction false} OneRecordPublishes(k: Identity, r: Record, owner: Listing, f: Field)
    ensures PublishedFor(map[k := r], r.eventId, owner, f) == Facts(r, f)
  {
    var records := map[k := r];
    assert RecordsOf(records, r.eventId) == {k};
    var keys := SortedRecords(records, r.eventId, owner);
    RecordOrderTotal(owner.sourceName, owner.sourceEventId);
    SortSetSpec(RecordOrder(owner.sourceName, owner.sourceEventId), {k});
    assert |keys| == 1 && keys[0] in keys;
    assert keys == [k] && keys[1..] == [];
    assert Published(records, [], f) == [];
  }

  /**
   Where the view breaks. A provider that lists performer `x` and then only `y`
   leaves its event showing the view of its records exactly when `x` is clean or
   clips to the same label as `y`: an unclean label is stored under another
   spelling than the one retracted, so that retraction leaves it on the event.
   */
  lemma {:induction false} RetractionWorksExactlyOnCleanLabels(env: Env, before: Observation, now: Observation,
                                                               x: string, y: string)
    requires Vocabulary(env) && Normalized(env, before) && Normalized(env, now)
    requires Stable(before.listing) && Stable(now.listing) && IdentityOf(before.listing) == IdentityOf(now.listing)
    requires before.listing.performers == [x] && now.listing.performers == [y]
    ensures var st := Run(env, EMPTY, [Observe(before, []), Observe(now, [0])]);
            0 in st.events &&
            (st.events[0].performers == View(st.records, 0, st.events[0], Performers) <==>
             CleanLabel(x) || Strip(x) == Strip(y))
  {
    FirstObservation(env, before, x);
    var first := Process(env, EMPTY, before, []).value.store;
    var record := Record(0, before.hash, [x], Restated([], before.listing.genres));
    ProcessKeepsInv(env, EMPTY, before, []);
    SecondObservation(env, first, before, now, record, x, y);
    TwoSteps(env, Observe(before, []), Observe(now, [0]));
    RetractionShowsView(x, y);
  }

  lemma {:induction false} RetractionShowsView(x: string, y: string)
    requires ShortLabel(x) && ShortLabel(y)
    ensures UpdateLabels([Strip(x)], [x], [y]) == CatalogLabels(MergeLists([y], [])) <==>
            CleanLabel(x) || Strip(x) == Strip(y)
  {
    ShownAfterRetraction(x, y);
    OneLabelView(y);
    assert |[Strip(y)]| != |[Strip(y), Strip(x)]|;
  }

  lemma {:induction false} OneLabelView(y: string)
    requires ShortLabel(y)
    ensures CatalogLabels(MergeLists([y], [])) == [Strip(y)]
  {
    OneLabel(y, y);
    CatalogLabelsOfMerge([y], []);
    assert [y] + [] == [y];
    assert CatalogLabels(MergeLists([y], [])) == Take(Dedupe(Clips([y])), LABEL_COUNT);
  }

  lemma {:induction false} TwoSteps(env: Env, a: Input, b: Input)
    ensures Run(env, EMPTY, [a, b]) == Next(env, Next(env, EMPTY, a), b)
  {
    assert [a, b][..1] == [a] && [a][..0] == [];
    assert Run(env, EMPTY, [a]) == Next(env, EMPTY, a);
  }

  lemma {:induction false} FirstObservation(env: Env, o: Observation, x: string)
    requires Stable(o.listing) && o.listing.performers == [x] && ShortLabel(x)
    ensures var r := Process(env, EMPTY, o, []);
            && r.Ok? && 0 in r.value.store.events
            && r.value.store.records ==
               map[IdentityOf(o.listing) := Record(0, o.hash, [x], Restated([], o.listing.genres))]
            && r.value.store.events[0].performers == [Strip(x)]
  {
    var k := IdentityOf(o.listing);
    var record := Record(0, o.hash, [x], Restated([], o.listing.genres));
    RecordsDecideOwnership(EMPTY, o.listing);
    assert EMPTY.records[k := record] == map[k := record];
    OneRecordPublishes(k, record, o.listing.(city := None), Performers);
    ShownAtFirst(x);
  }

  lemma {:induction false} SecondObservation(env: Env, first: Store, before: Observation, now: Observation,
                                             record: Record, x: string, y: string)
    requires Indexed(first) && 0 in first.events && Stable(before.listing) && Stable(now.listing)
    requires IdentityOf(before.listing) == IdentityOf(now.listing)
    requires first.records == map[IdentityOf(before.listing) := record] && record.eventId == 0
             && record.performers == [x]
    requires first.events[0].performers == [Strip(x)] && now.listing.performers == [y]
    ensures var r := Process(env, first, now, [0]);
            && r.Ok? && 0 in r.value.store.events
            && r.value.store.events[0].performers == UpdateLabels([Strip(x)], [x], [y])
            && PublishedFor(r.value.store.records, 0, r.value.store.events[0], Performers) == [y]
  {
    var k := IdentityOf(now.listing);
    var route := FindExisting(env, first, now, [0]);
    RecordsDecideOwnership(first, now.listing);
    assert route.target == Some(0);
    var row := Base(env, first, now, route);
    var record' := Record(0, now.hash, [y], Restated(record.genres, now.listing.genres));
    assert first.records[k := record'] == map[k := record'];
    OneRecordPublishes(k, record', row, Performers);
    var after := Process(env, first, now, [0]).value.store;
    OneRecordPublishes(k, record', after.events[0], Performers);
  }

  lemma {:induction false} ClipsOfTwo(a: string, b: string)
    requires ShortLabel(a) && ShortLabel(b)
    ensures Clips([a]) == [Strip(a)] && Clips([a] + [b]) == [Strip(a)] + [Strip(b)]
  {
    ClipPresentFixes(a);
    ClipPresentFixes(b);
    FilterMapAppend([], a, ClipPresent);
    assert [] + [a] == [a] && [] + [Strip(a)] == [Strip(a)];
    FilterMapAppend([a], b, ClipPresent);
  }

  lemma {:induction false} DedupeOfTwo(x: string, y: string)
    ensures Dedupe([x]) == [x] && Dedupe([x] + [y]) == if x == y then [x] else [x, y]
  {
    DedupeAppend([], x);
    assert [] + [x] == [x];
    DedupeAppend([x], y);
  }

  /** Clipping and deduplicating one or two labels. */
  lemma {:induction false} OneLabel(a: string, b: string)
    requires ShortLabel(a) && ShortLabel(b)
    ensures Take(Dedupe(Clips([a])), LABEL_COUNT) == [Strip(a)]
    ensures Take(Dedupe(Clips([a] + [b])), LABEL_COUNT) == if Strip(a) == Strip(b) then [Strip(a)]
            else [Strip(a), Strip(b)]
  {
    ClipsOfTwo(a, b);
    DedupeOfTwo(Strip(a), Strip(b));
  }
}