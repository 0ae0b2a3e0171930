/**
 What holds in every state an ingest run reaches: the identity index, who owns
 an event, where its coordinate came from, and what may move backwards.
 */
module Invariants {
  import opened Prelude
  import opened Lists
  import opened Text
  import opened Listings
  import opened Matching
  import opened Merging
  import opened Ingest

  lemma {:induction false} CanonicalMembersAreFixed(s: seq<string>, f: string -> Option<string>)
    requires Canonicalizes(f)
    requires Dedupe(FilterMap(s, f)) == s
    ensures NoDuplicates(s)
    ensures forall x :: x in s ==> f(x) == Some(x) && x != ""
  {
    DedupeSpec(FilterMap(s, f));
    FilterMapMembers(s, f);
  }

  /** Merging two canonical lists stays canonical, and loses nothing. */
  lemma {:induction false} MergeListsCanonical(a: seq<string>, b: seq<string>, f: string -> Option<string>)
    requires Canonicalizes(f)
    requires Dedupe(FilterMap(a, f)) == a && Dedupe(FilterMap(b, f)) == b
    ensures Dedupe(FilterMap(MergeLists(a, b), f)) == MergeLists(a, b)
  {
    CanonicalMembersAreFixed(a, f);
    CanonicalMembersAreFixed(b, f);
    MergeListsMembers(a, b);
    DedupeSpec(FilterMap(a + b, NonBlank));
    FilterMapFixed(MergeLists(a, b), f);
    DedupeOfDistinct(MergeLists(a, b));
  }

  lemma {:induction false} MergeListsMembers(a: seq<string>, b: seq<string>)
    ensures forall x :: x in MergeLists(a, b) <==> x != "" && (x in a || x in b)
  {
    DedupeSpec(FilterMap(a + b, NonBlank));
    FilterMapMembers(a + b, NonBlank);
    forall x | x != "" && (x in a || x in b)
      ensures x in MergeLists(a, b)
    {
      assert x in a + b && NonBlank(x) == Some(x);
    }
  }

  /** A stored row reads back as itself. */
  lemma {:induction false} StoredRowReadsBack(env: Env, row: Listing)
    requires StoredRow(env, row)
    ensures EventToPayload(env, row) == row
  {
  }

  lemma {:induction false} UpdatedIsStored(env: Env, row: Listing, s: Listing, replayed: bool, revised: bool)
    requires Vocabulary(env) && StoredRow(env, row) && CanonicalLists(env, s)
    ensures StoredRow(env, Updated(env, row, s, replayed, revised))
  {
    StoredRowReadsBack(env, row);
    CanonicalIdempotent(MergeLists(row.categories, s.categories), env.category);
    MergeListsCanonical(row.tags, s.tags, env.vibe);
  }

  /** The settled row is owned by whoever owned it before, or by the observation. */
  lemma {:induction false} BaseOwner(env: Env, st: Store, o: Observation, route: Route)
    requires route.target.Some? ==> route.target.value in st.events
    ensures var row := Base(env, st, o, route);
            || (row.sourceName == o.listing.sourceName && row.sourceEventId == o.listing.sourceEventId
                && row.sourceTier == o.listing.sourceTier)
            || (route.target.Some?
                && var was := st.events[route.target.value];
                   row.sourceName == was.sourceName && row.sourceEventId == was.sourceEventId
                   && row.sourceTier == was.sourceTier)
    ensures route.target.Some? ==> Base(env, st, o, route).sourceTier <= st.events[route.target.value].sourceTier
  {
    if IsSignificant(env, st, o, route) {
      OwnerTravelsWithTier(env, st.events[route.target.value], o.listing, route.replayed, route.revised);
    }
  }

  lemma {:induction false} BaseIsStored(env: Env, st: Store, o: Observation, route: Route)
    requires Vocabulary(env) && Inv(env, st) && Normalized(env, o)
    requires route.target.Some? ==> route.target.value in st.events
    ensures StoredRow(env, Base(env, st, o, route))
  {
    if IsSignificant(env, st, o, route) {
      UpdatedIsStored(env, st.events[route.target.value], o.listing, route.replayed, route.revised);
    }
  }

  lemma {:induction false} RememberKeepsFacts(env: Env, st: Store, id: nat, o: Observation, pp: seq<string>,
                                              pg: seq<string>)
    requires id in st.events && Normalized(env, o) && StoredFacts(st) && Remember(st, id, o, pp, pg).Ok?
    ensures StoredFacts(Remember(st, id, o, pp, pg).value.store)
  {
    if Stable(o.listing) {
      var k := IdentityOf(o.listing);
      var after := Remember(st, id, o, pp, pg).value.store.records;
      assert after == st.records[k := after[k]] && after[k].hash == o.hash;
      assert ShortFacts(after[k]);
    }
  }

  lemma {:induction false} LandKeepsFacts(env: Env, st: Store, o: Observation, target: Option<nat>, row: Listing,
                                          significant: bool)
    requires target.Some? ==> target.value in st.events
    requires Normalized(env, o) && StoredFacts(st)
    requires Land(st, o, target, row, significant).Ok?
    ensures StoredFacts(Land(st, o, target, row, significant).value.store)
  {
    var id := target.GetOr(st.nextId);
    var prior := if target.Some? then st.events[id] else row;
    var placed := Store(st.events[id := row], st.records, if target.Some? then st.nextId else st.nextId + 1);
    RememberKeepsFacts(env, placed, id, o, prior.performers, prior.genres);
  }

  lemma {:induction false} LabelsDoNotMatter(env: Env, a: Listing, b: Listing)
    requires StoredRow(env, b) && SameButLabels(a, b)
    ensures StoredRow(env, a)
  {
  }

  lemma {:induction false} LandKeepsRows(env: Env, st: Store, o: Observation, target: Option<nat>, row: Listing,
                                         out: Outcome)
    requires target.Some? ==> target.value in st.events
    requires StoredRows(env, st) && StoredRow(env, row)
    requires Landed(st, o, target, row, out)
    ensures StoredRows(env, out.store)
  {
    LabelsDoNotMatter(env, out.store.events[out.id], row);
  }

  /** Merging label lists invents no long label. */
  lemma {:induction false} UpdatedIsShort(env: Env, row: Listing, s: Listing, replayed: bool, revised: bool)
    requires ShortRow(row) && ShortRow(s)
    ensures ShortRow(Updated(env, row, s, replayed, revised))
  {
    var e := EventToPayload(env, row);
    MergeListsMembers(e.performers, s.performers);
    MergeListsMembers(e.genres, s.genres);
  }

  lemma {:induction false} BaseIsShort(env: Env, st: Store, o: Observation, route: Route)
    requires StoredLabels(st) && Normalized(env, o)
    requires route.target.Some? ==> route.target.value in st.events
    ensures ShortRow(Base(env, st, o, route))
  {
    if IsSignificant(env, st, o, route) {
      UpdatedIsShort(env, st.events[route.target.value], o.listing, route.replayed, route.revised);
    }
  }

  lemma {:induction false} RememberKeepsLabels(st: Store, id: nat, o: Observation, pp: seq<string>, pg: seq<string>)
    requires id in st.events && Remember(st, id, o, pp, pg).Ok? && ShortRow(st.events[id])
    ensures ShortRow(Remember(st, id, o, pp, pg).value.store.events[id])
  {
    if Stable(o.listing) {
      var records := Remember(st, id, o, pp, pg).value.store.records;
      var k := IdentityOf(o.listing);
      var was := if k in st.records then st.records[k] else Record(id, "", [], []);
      CatalogLabelsAreLabels(MergeLists(PublishedFor(records, id, st.events[id], Performers),
                                        Without(pp, was.performers)));
      CatalogLabelsAreLabels(MergeLists(PublishedFor(records, id, st.events[id], Genres), Without(pg, was.genres)));
    }
  }

  lemma {:induction false} LandKeepsLabels(st: Store, o: Observation, target: Option<nat>, row: Listing,
                                           significant: bool)
    requires target.Some? ==> target.value in st.events
    requires StoredLabels(st) && ShortRow(row) && Land(st, o, target, row, significant).Ok?
    requires Landed(st, o, target, row, Land(st, o, target, row, significant).value)
    ensures StoredLabels(Land(st, o, target, row, significant).value.store)
  {
    var id := target.GetOr(st.nextId);
    var prior := if target.Some? then st.events[id] else row;
    var placed := Store(st.events[id := row], st.records, if target.Some? then st.nextId else st.nextId + 1);
    RememberKeepsLabels(placed, id, o, prior.performers, prior.genres);
  }

  lemma {:induction false} LandKeepsBackPointers(st: Store, o: Observation, target: Option<nat>, row: Listing,
                                                 out: Outcome)
    requires target.Some? ==> target.value in st.events
    requires Indexed(st)
    requires Landed(st, o, target, row, out)
    requires || (row.sourceName == o.listing.sourceName && row.sourceEventId == o.listing.sourceEventId)
             || (target.Some? && row.sourceName == st.events[out.id].sourceName
                 && row.sourceEventId == st.events[out.id].sourceEventId)
    ensures Indexed(out.store)
  {
    forall id | id in out.store.events && Stable(out.store.events[id])
      ensures IdentityOf(out.store.events[id]) in out.store.records
      ensures out.store.records[IdentityOf(out.store.events[id])].eventId == id
    {
      var k := IdentityOf(out.store.events[id]);
      if id in st.events && id != out.id {
        assert Stable(st.events[id]) && IdentityOf(st.events[id]) == k;
      } else if !(Stable(o.listing) && k == IdentityOf(o.listing)) {
        assert Stable(st.events[id]) && IdentityOf(st.events[id]) == k;
      }
    }
  }

  lemma {:induction false} ProcessKeepsInv(env: Env, st: Store, o: Observation, scan: seq<nat>)
    requires Vocabulary(env) && Inv(env, st) && Normalized(env, o)
    ensures Process(env, st, o, scan).Ok?
    ensures Inv(env, Process(env, st, o, scan).value.store)
  {
    var route := FindExisting(env, st, o, scan);
    var row := Base(env, st, o, route);
    ProcessTouchesOneEvent(env, st, o, scan);
    BaseIsStored(env, st, o, route);
    BaseIsShort(env, st, o, route);
    BaseOwner(env, st, o, route);
    LandKeepsInv(env, st, o, route.target, row, IsSignificant(env, st, o, route));
  }

  lemma {:induction false} LandKeepsInv(env: Env, st: Store, o: Observation, target: Option<nat>, row: Listing,
                                        significant: bool)
    requires target.Some? ==> target.value in st.events
    requires Inv(env, st) && Normalized(env, o) && StoredRow(env, row) && ShortRow(row)
    requires Land(st, o, target, row, significant).Ok?
    requires Landed(st, o, target, row, Land(st, o, target, row, significant).value)
    requires || (row.sourceName == o.listing.sourceName && row.sourceEventId == o.listing.sourceEventId)
             || (target.Some? && row.sourceName == st.events[target.value].sourceName
                 && row.sourceEventId == st.events[target.value].sourceEventId)
    ensures Inv(env, Land(st, o, target, row, significant).value.store)
  {
    var out := Land(st, o, target, row, significant).value;
    LandKeepsBackPointers(st, o, target, row, out);
    LandKeepsRows(env, st, o, target, row, out);
    LandKeepsLabels(st, o, target, row, significant);
    LandKeepsFacts(env, st, o, target, row, significant);
  }

  lemma {:induction false} MarkPastKeepsIndex(st: Store, cutoff: int)
    requires Indexed(st)
    ensures Indexed(MarkPast(st, cutoff))
  {
    var after := MarkPast(st, cutoff);
    forall id | id in after.events && Stable(after.events[id])
      ensures IdentityOf(after.events[id]) in after.records && after.records[IdentityOf(after.events[id])].eventId == id
    {
      assert Stable(st.events[id]) && IdentityOf(st.events[id]) == IdentityOf(after.events[id]);
    }
  }

  lemma {:induction false} MarkPastKeepsRows(env: Env, st: Store, cutoff: int)
    requires WellStored(env, st)
    ensures WellStored(env, MarkPast(st, cutoff))
  {
    var after := MarkPast(st, cutoff);
    forall id | id in after.events
      ensures StoredRow(env, after.events[id]) && ShortRow(after.events[id])
    {
      assert StoredRow(env, st.events[id]) && ShortRow(st.events[id]);
    }
  }

  lemma {:induction false} NextKeepsInv(env: Env, st: Store, input: Input)
    requires Vocabulary(env) && Inv(env, st) && ValidInput(env, st, input)
    ensures Inv(env, Next(env, st, input))
  {
    match input
    case Observe(o, scan) => ProcessKeepsInv(env, st, o, scan);
    case Refused(_) =>
    case Lifecycle(cutoff) => MarkPastKeepsIndex(st, cutoff); MarkPastKeepsRows(env, st, cutoff);
  }

  /** Every state a run reaches from a good one is good. */
  lemma {:induction false} RunKeepsInv(env: Env, st: Store, inputs: seq<Input>)
    requires Vocabulary(env) && Inv(env, st) && ValidRun(env, st, inputs)
    ensures Inv(env, Run(env, st, inputs))
  {
    if inputs != [] {
      RunKeepsInv(env, st, inputs[..|inputs| - 1]);
      NextKeepsInv(env, Run(env, st, inputs[..|inputs| - 1]), inputs[|inputs| - 1]);
    }
  }

  /** No two events are stored under the same stable identity. */
  lemma {:induction false} OneOwnerPerIdentity(env: Env, inputs: seq<Input>, a: nat, b: nat)
    requires Vocabulary(env) && ValidRun(env, EMPTY, inputs)
    requires var st := Run(env, EMPTY, inputs); a in st.events && b in st.events
    requires var st := Run(env, EMPTY, inputs);
             Stable(st.events[a]) && Stable(st.events[b]) && IdentityOf(st.events[a]) == IdentityOf(st.events[b])
    ensures a == b
  {
    RunKeepsInv(env, EMPTY, inputs);
  }

  /** The provider's hash is on file and says nothing changed. */
  predicate IsReplay(st: Store, o: Observation) {
    Stable(o.listing) && IdentityOf(o.listing) in st.records && st.records[IdentityOf(o.listing)].hash == o.hash
  }

  /** The provider's hash is on file and says something changed. */
  predicate IsRevision(st: Store, o: Observation) {
    Stable(o.listing) && IdentityOf(o.listing) in st.records && st.records[IdentityOf(o.listing)].hash != o.hash
  }

  lemma {:induction false} RouteFlags(env: Env, st: Store, o: Observation, scan: seq<nat>)
    requires Inv(env, st) && Normalized(env, o)
    ensures FindExisting(env, st, o, scan).replayed == IsReplay(st, o)
    ensures FindExisting(env, st, o, scan).revised == IsRevision(st, o)
  {
  }

  /** No row of a good store carries an identity that is not on record. */
  lemma {:induction false} UnrecordedIsNobodys(st: Store, o: Listing, id: nat)
    requires Indexed(st) && id in st.events && !(Stable(o) && IdentityOf(o) in st.records)
    ensures !SameSourceIdentity(st.events[id], o)
  {
    var row := st.events[id];
    assert Stable(row) ==> IdentityOf(row) in st.records;
  }

  /** Among the rows that may be the same show, none has a more similar title by either measure. */
  ghost predicate MostSimilar(env: Env, st: Store, o: Listing, id: nat) {
    && id in st.events && SameShow(env, st.events[id], o)
    && forall other :: other in st.events && SameShow(env, st.events[other], o) ==>
         var score := env.textSimilarity(st.events[other].title, o.title);
         var words := env.tokenSimilarity(st.events[other].title, o.title);
         && (score <= env.textSimilarity(st.events[id].title, o.title)
             || score <= env.tokenSimilarity(st.events[id].title, o.title))
         && (words <= env.textSimilarity(st.events[id].title, o.title)
             || words <= env.tokenSimilarity(st.events[id].title, o.title))
  }

  /**
   An identity on record goes to its event. Any other observation goes to a stored
   row exactly when some row may be the same show, by time, venue and corroboration,
   and then to one whose title is most similar.
   */
  lemma {:induction false} RouteExactly(env: Env, st: Store, o: Observation, scan: seq<nat>)
    requires Calendar(env) && Indexed(st) && ScanOf(scan, st.events)
    ensures var target, l := FindExisting(env, st, o, scan).target, o.listing;
            if Stable(l) && IdentityOf(l) in st.records then target == Some(st.records[IdentityOf(l)].eventId)
            else
              && (target.Some? <==> exists id :: id in st.events && SameShow(env, st.events[id], l))
              && (target.Some? ==> MostSimilar(env, st, l, target.value))
  {
    var l := o.listing;
    RecordsDecideOwnership(st, l);
    if !(Stable(l) && IdentityOf(l) in st.records) {
      var viable := Viable(env, st.events, l, scan);
      ViableMembers(env, st.events, l, scan);
      forall id
        ensures id in viable <==> id in st.events && SameShow(env, st.events[id], l)
      {
        if id in st.events {
          UnrecordedIsNobodys(st, l, id);
          DuplicatesExactly(env, st.events[id], l);
          TimeFilterKeepsCompatible(env, st.events[id], l);
        }
      }
      assert viable != [] ==> viable[0] in viable;
    }
  }

  /** Records and events only accumulate, and a record's event never changes. */
  ghost predicate Extends(before: Store, after: Store) {
    && before.events.Keys <= after.events.Keys
    && before.nextId <= after.nextId
    && (forall k :: k in before.records ==> k in after.records && after.records[k].eventId == before.records[k].eventId)
    && (forall id :: id in before.events ==> after.events[id].sourceTier <= before.events[id].sourceTier)
  }

  /** One step never moves an identity to another event and never worsens an owner's tier. */
  lemma {:induction false} NextExtends(env: Env, st: Store, input: Input)
    requires Indexed(st)
    ensures Extends(st, Next(env, st, input))
  {
    if input.Observe? {
      var route := FindExisting(env, st, input.o, input.scan);
      ProcessTouchesOneEvent(env, st, input.o, input.scan);
      BaseOwner(env, st, input.o, route);
      LandedExtends(st, input.o, route.target, Base(env, st, input.o, route),
                    Process(env, st, input.o, input.scan).value);
    }
  }

  lemma {:induction false} LandedExtends(st: Store, o: Observation, target: Option<nat>, row: Listing, out: Outcome)
    requires target.Some? ==> target.value in st.events && row.sourceTier <= st.events[target.value].sourceTier
    requires st.nextId !in st.events
    requires Landed(st, o, target, row, out)
    ensures Extends(st, out.store)
  {
    forall k | k in st.records
      ensures k in out.store.records && out.store.records[k].eventId == st.records[k].eventId
    {
      assert Stable(o.listing) ==> OwnRecordOnly(st, out.store, out.id, o);
    }
  }

  /** Over a whole run, owners stay and tiers only improve. */
  lemma {:induction false} RunExtends(env: Env, st: Store, inputs: seq<Input>, from: nat)
    requires Vocabulary(env) && Inv(env, st) && ValidRun(env, st, inputs) && from <= |inputs|
    ensures Extends(Run(env, st, inputs[..from]), Run(env, st, inputs))
    decreases |inputs|
  {
    if from == |inputs| {
      assert inputs[..from] == inputs;
    } else {
      var init := inputs[..|inputs| - 1];
      assert inputs[..from] == init[..from];
      RunExtends(env, st, init, from);
      RunKeepsInv(env, st, init);
      NextExtends(env, Run(env, st, init), inputs[|inputs| - 1]);
    }
  }

  /**
   Once an identity has been stored, every later observation of it, whatever its
   new date, title, venue or tier, lands on the same event and inserts nothing.
   */
  lemma {:induction false} ReobservationFindsItsEvent(env: Env, inputs: seq<Input>, at: nat, later: Observation,
                                                      scan: seq<nat>)
    requires Vocabulary(env) && ValidRun(env, EMPTY, inputs) && at < |inputs|
    requires inputs[at].Observe? && Stable(inputs[at].o.listing) && Stable(later.listing)
    requires IdentityOf(later.listing) == IdentityOf(inputs[at].o.listing)
    ensures var first := Process(env, Run(env, EMPTY, inputs[..at]), inputs[at].o, inputs[at].scan);
            var again := Process(env, Run(env, EMPTY, inputs), later, scan);
            first.Ok? && again.Ok? && !again.value.inserted && again.value.id == first.value.id
  {
    ObservationIsRecorded(env, EMPTY, inputs, at);
    RunKeepsInv(env, EMPTY, inputs);
    ProcessTouchesOneEvent(env, Run(env, EMPTY, inputs), later, scan);
  }

  /** An observation that was accepted anywhere in a run is still on record at its end. */
  lemma {:induction false} ObservationIsRecorded(env: Env, st: Store, inputs: seq<Input>, at: nat)
    requires Vocabulary(env) && Inv(env, st) && ValidRun(env, st, inputs) && at < |inputs|
    requires inputs[at].Observe? && Stable(inputs[at].o.listing)
    ensures var first := Process(env, Run(env, st, inputs[..at]), inputs[at].o, inputs[at].scan);
            var k := IdentityOf(inputs[at].o.listing);
            && first.Ok? && k in Run(env, st, inputs).records
            && Run(env, st, inputs).records[k].eventId == first.value.id
  {
    ValidPrefix(env, st, inputs, at);
    RunKeepsInv(env, st, inputs[..at]);
    ObserveRecords(env, Run(env, st, inputs[..at]), inputs[at]);
    RunStep(env, st, inputs, at);
    RunExtends(env, st, inputs, at + 1);
  }

  lemma {:induction false} RunStep(env: Env, st: Store, inputs: seq<Input>, i: nat)
    requires i < |inputs|
    ensures Run(env, st, inputs[..i + 1]) == Next(env, Run(env, st, inputs[..i]), inputs[i])
  {
    assert inputs[..i + 1][..i] == inputs[..i] && inputs[..i + 1][i] == inputs[i];
  }

  lemma {:induction false} ObserveRecords(env: Env, st: Store, input: Input)
    requires Indexed(st) && input.Observe? && Stable(input.o.listing)
    ensures Process(env, st, input.o, input.scan).Ok?
    ensures IdentityOf(input.o.listing) in Next(env, st, input).records
    ensures Next(env, st, input).records[IdentityOf(input.o.listing)].eventId ==
            Process(env, st, input.o, input.scan).value.id
  {
    ProcessTouchesOneEvent(env, st, input.o, input.scan);
  }

  lemma {:induction false} ValidPrefix(env: Env, st: Store, inputs: seq<Input>, n: nat)
    requires ValidRun(env, st, inputs) && n <= |inputs|
    ensures ValidRun(env, st, inputs[..n])
    decreases |inputs|
  {
    if n == |inputs| {
      assert inputs[..n] == inputs;
    } else {
      var init := inputs[..|inputs| - 1];
      ValidPrefix(env, st, init, n);
      assert init[..n] == inputs[..n];
    }
  }

  /** Some observation of the run carried exactly this coordinate with this confidence. */
  ghost predicate CoordinateSeen(inputs: seq<Input>, location: string, confidence: real) {
    exists i :: 0 <= i < |inputs| && inputs[i].Observe? && inputs[i].o.listing.location == location
      && inputs[i].o.listing.confidence == confidence
  }

  /** Some observation of the run was published by this owner at this tier. */
  ghost predicate OwnerSeen(inputs: seq<Input>, name: string, id: Option<string>, tier: int) {
    exists i :: 0 <= i < |inputs| && inputs[i].Observe? && inputs[i].o.listing.sourceName == name
      && inputs[i].o.listing.sourceEventId == id && inputs[i].o.listing.sourceTier == tier
  }

  ghost predicate RowSeen(inputs: seq<Input>, row: Listing) {
    CoordinateSeen(inputs, row.location, row.confidence)
    && OwnerSeen(inputs, row.sourceName, row.sourceEventId, row.sourceTier)
  }

  lemma {:induction false} SeenGrows(inputs: seq<Input>, input: Input, row: Listing)
    requires RowSeen(inputs, row)
    ensures RowSeen(inputs + [input], row)
  {
    var all := inputs + [input];
    var i :| 0 <= i < |inputs| && inputs[i].Observe? && inputs[i].o.listing.location == row.location
        && inputs[i].o.listing.confidence == row.confidence;
    assert all[i] == inputs[i];
    var j :| 0 <= j < |inputs| && inputs[j].Observe? && inputs[j].o.listing.sourceName == row.sourceName
      && inputs[j].o.listing.sourceEventId == row.sourceEventId && inputs[j].o.listing.sourceTier == row.sourceTier;
    assert all[j] == inputs[j];
  }

  lemma {:induction false} BaseSeen(env: Env, st: Store, inputs: seq<Input>, input: Input, route: Route)
    requires input.Observe? && Normalized(env, input.o)
    requires route.target.Some? ==> route.target.value in st.events && RowSeen(inputs, st.events[route.target.value])
                                    && StoredRow(env, st.events[route.target.value])
    ensures RowSeen(inputs + [input], Base(env, st, input.o, route))
  {
    var all := inputs + [input];
    assert all[|inputs|] == input;
    BaseOwner(env, st, input.o, route);
    if route.target.Some? {
      var was := st.events[route.target.value];
      SeenGrows(inputs, input, was);
      if IsSignificant(env, st, input.o, route) {
        CoordinateTravelsWithConfidence(env, was, input.o.listing, route.replayed, route.revised);
      }
    }
  }

  lemma {:induction false} NextRowSeen(env: Env, st: Store, seen: seq<Input>, input: Input, id: nat)
    requires Inv(env, st) && ValidInput(env, st, input)
    requires forall other :: other in st.events ==> RowSeen(seen, st.events[other])
    requires id in Next(env, st, input).events
    ensures RowSeen(seen + [input], Next(env, st, input).events[id])
  {
    var after := Next(env, st, input);
    if input.Observe? {
      var route := FindExisting(env, st, input.o, input.scan);
      ProcessTouchesOneEvent(env, st, input.o, input.scan);
      BaseSeen(env, st, seen, input, route);
      if id == route.target.GetOr(st.nextId) {
        SeenByOwnFields(seen + [input], after.events[id], Base(env, st, input.o, route));
      } else {
        SeenGrows(seen, input, st.events[id]);
      }
    } else {
      SeenGrows(seen, input, st.events[id]);
      SeenByOwnFields(seen + [input], after.events[id], st.events[id]);
    }
  }

  lemma {:induction false} SeenByOwnFields(seen: seq<Input>, a: Listing, b: Listing)
    requires RowSeen(seen, b)
    requires a.location == b.location && a.confidence == b.confidence && a.sourceName == b.sourceName
    requires a.sourceEventId == b.sourceEventId && a.sourceTier == b.sourceTier
    ensures RowSeen(seen, a)
  {
  }

  /**
   In every reachable state an event's coordinate and confidence were carried
   together by one observation, and its name, id and tier were published together
   by its current owner: neither is ever a mix.
   */
  lemma {:induction false} RowsHaveOneSource(env: Env, inputs: seq<Input>)
    requires Vocabulary(env) && ValidRun(env, EMPTY, inputs)
    ensures forall id :: id in Run(env, EMPTY, inputs).events ==> RowSeen(inputs, Run(env, EMPTY, inputs).events[id])
  {
    if inputs != [] {
      var init, input := inputs[..|inputs| - 1], inputs[|inputs| - 1];
      assert inputs == init + [input];
      RowsHaveOneSource(env, init);
      RunKeepsInv(env, EMPTY, init);
      forall id | id in Run(env, EMPTY, inputs).events
        ensures RowSeen(inputs, Run(env, EMPTY, inputs).events[id])
      {
        NextRowSeen(env, Run(env, EMPTY, init), init, input, id);
      }
    }
  }

  /** What it takes to move an event backwards: not a replay, no worse tier, and ownership or a better-tier revision. */
  ghost predicate Overrules(st: Store, o: Observation, row: Listing) {
    && !IsReplay(st, o)
    && o.listing.sourceTier <= row.sourceTier
    && (SameSourceIdentity(row, o.listing) || (IsRevision(st, o) && o.listing.sourceTier < row.sourceTier))
  }

  /** Equal in status, start and whether the start is an estimate. */
  predicate SameTiming(a: Listing, b: Listing) {
    a.status == b.status && a.startAt == b.startAt && a.estimated == b.estimated
  }

  /** An event keeps its timing, or takes the timing of the merged row. */
  lemma {:induction false} NextTiming(env: Env, st: Store, o: Observation, scan: seq<nat>, id: nat)
    requires Vocabulary(env) && Inv(env, st) && Normalized(env, o) && id in st.events
    ensures var after := Next(env, st, Observe(o, scan));
            id in after.events &&
            (|| SameTiming(after.events[id], st.events[id])
             || SameTiming(after.events[id],
                           Updated(env, st.events[id], o.listing, IsReplay(st, o), IsRevision(st, o))))
  {
    ProcessTouchesOneEvent(env, st, o, scan);
    RouteFlags(env, st, o, scan);
  }

  /**
   The record an observation leaves: its hash, its event, and what it lists; where it
   lists nothing, what the provider listed before stays on record.
   */
  lemma {:induction false} RecordExactly(env: Env, st: Store, o: Observation, scan: seq<nat>, f: Field)
    requires Indexed(st) && Stable(o.listing)
    ensures var out, k := Process(env, st, o, scan).value, IdentityOf(o.listing);
            && Process(env, st, o, scan).Ok? && k in out.store.records
            && out.store.records[k].eventId == out.id && out.store.records[k].hash == o.hash
            && (LabelsOf(o.listing, f) != [] ==> Facts(out.store.records[k], f) == LabelsOf(o.listing, f))
            && (LabelsOf(o.listing, f) == [] ==>
                  Facts(out.store.records[k], f) == if k in st.records then Facts(st.records[k], f) else [])
  {
    ProcessTouchesOneEvent(env, st, o, scan);
    var route := FindExisting(env, st, o, scan);
    LandedRecord(st, o, route.target, Base(env, st, o, route), IsSignificant(env, st, o, route), f);
  }

  lemma {:induction false} LandedRecord(st: Store, o: Observation, target: Option<nat>, row: Listing,
                                        significant: bool, f: Field)
    requires (target.Some? ==> target.value in st.events) && Stable(o.listing)
    ensures var r, k := Land(st, o, target, row, significant), IdentityOf(o.listing);
            r.Ok? ==>
              && k in r.value.store.records
              && (LabelsOf(o.listing, f) != [] ==> Facts(r.value.store.records[k], f) == LabelsOf(o.listing, f))
              && (LabelsOf(o.listing, f) == [] ==>
                    Facts(r.value.store.records[k], f) == if k in st.records then Facts(st.records[k], f) else [])
  {
  }

  lemma {:induction false} UnchangedLabels(st: Store, id: nat, o: Observation)
    requires id in st.events
    ensures var row, r := st.events[id], Remember(st, id, o, st.events[id].performers, st.events[id].genres);
            r.Ok? && !r.value.changed ==> r.value.store.events[id] == row && r.value.store.events == st.events
  {
    var row, r := st.events[id], Remember(st, id, o, st.events[id].performers, st.events[id].genres);
    if Stable(o.listing) && r.Ok? && !r.value.changed {
      assert r.value.store.events == st.events[id := row.(performers := row.performers, genres := row.genres)];
      assert row.(performers := row.performers, genres := row.genres) == row;
    }
  }

  lemma {:induction false} UnchangedRow(st: Store, o: Observation, id: nat, significant: bool)
    requires id in st.events
    ensures var r := Land(st, o, Some(id), st.events[id], significant);
            r.Ok? && !r.value.updated ==> r.value.store.events == st.events
  {
    UnchangedLabels(st, id, o);
    var placed := Store(st.events[id := st.events[id]], st.records, st.nextId);
    assert placed == st;
  }

  /** "Skipped" is said only of an observation that changed no event. */
  lemma {:induction false} SkippedChangesNothing(env: Env, st: Store, o: Observation, scan: seq<nat>)
    ensures var r := Process(env, st, o, scan);
            r.Ok? && !r.value.inserted && !r.value.updated ==> r.value.store.events == st.events
  {
    var route := FindExisting(env, st, o, scan);
    if route.target.Some? && !IsSignificant(env, st, o, route) {
      UnchangedRow(st, o, route.target.value, false);
    }
  }

  /** In every reachable state, an event's status severity drops only when the observation overrules its owner. */
  lemma {:induction false} SeverityDropsOnlyOnAuthority(env: Env, st: Store, input: Input, id: nat)
    requires Vocabulary(env) && Inv(env, st) && ValidInput(env, st, input) && id in st.events
    ensures id in Next(env, st, input).events
    ensures Severity(Next(env, st, input).events[id].status) < Severity(st.events[id].status) ==>
              input.Observe? && Overrules(st, input.o, st.events[id])
  {
    if input.Observe? {
      NextTiming(env, st, input.o, input.scan, id);
      if Severity(Next(env, st, input).events[id].status) < Severity(st.events[id].status) {
        StatusDropNeedsAuthority(env, st.events[id], input.o.listing, IsReplay(st, input.o), IsRevision(st, input.o));
      }
    }
  }

  /** "past" is left only together with a new start, and only when the owner is overruled. */
  lemma {:induction false} PastIsLeftOnlyWithNewStart(env: Env, st: Store, input: Input, id: nat)
    requires Vocabulary(env) && Inv(env, st) && ValidInput(env, st, input) && id in st.events
    ensures id in Next(env, st, input).events
    ensures var after := Next(env, st, input).events[id];
      st.events[id].status == "past" && after.status != "past" ==>
        input.Observe? && Overrules(st, input.o, st.events[id]) && after.startAt != st.events[id].startAt
  {
    if input.Observe? {
      NextTiming(env, st, input.o, input.scan, id);
      if st.events[id].status == "past" && Next(env, st, input).events[id].status != "past" {
        PastLeftOnlyWithNewStart(env, st.events[id], input.o.listing, IsReplay(st, input.o), IsRevision(st, input.o));
      }
    }
  }

  /**
   A published start becomes an estimate only when an authoritative observation,
   itself an estimate, moves the event to another local day.
   */
  lemma {:induction false} EstimateReplacesOnlyAnotherDay(env: Env, st: Store, input: Input, id: nat)
    requires Vocabulary(env) && Inv(env, st) && ValidInput(env, st, input) && id in st.events
    ensures id in Next(env, st, input).events
    ensures var after := Next(env, st, input).events[id];
      !st.events[id].estimated && after.estimated ==>
        && input.Observe? && Authoritative(st.events[id], input.o.listing, IsReplay(st, input.o),
                                           IsRevision(st, input.o))
        && input.o.listing.estimated && env.day(st.events[id].startAt) != env.day(input.o.listing.startAt)
        && after.startAt == input.o.listing.startAt
  {
    if input.Observe? {
      NextTiming(env, st, input.o, input.scan, id);
      if !st.events[id].estimated && Next(env, st, input).events[id].estimated {
        EstimateReplacesPublishedTime(env, st.events[id], input.o.listing, IsReplay(st, input.o),
                                      IsRevision(st, input.o));
      }
    }
  }

  /**
   A step takes a published link from an event exactly when it is an observation
   that lands there without a link, and either has authority or is of better tier
   and has something else to add.
   */
  lemma {:induction false} LinkIsLostExactly(env: Env, st: Store, input: Input, id: nat)
    requires Vocabulary(env) && Inv(env, st) && ValidInput(env, st, input)
    requires id in st.events && !IsMissing(st.events[id].externalUrl)
    ensures id in Next(env, st, input).events
    ensures IsMissing(Next(env, st, input).events[id].externalUrl) <==>
              && input.Observe? && FindExisting(env, st, input.o, input.scan).target == Some(id)
              && TakesLink(env, st.events[id], input.o.listing, IsReplay(st, input.o), IsRevision(st, input.o))
  {
    if input.Observe? {
      LinkAfter(env, st, input.o, input.scan, id);
      AuthorityIsSignificant(env, st.events[id], input.o.listing, IsReplay(st, input.o), IsRevision(st, input.o));
      LinkIsErasedExactly(env, st.events[id], input.o.listing, IsReplay(st, input.o), IsRevision(st, input.o));
    }
  }

  /** The link of an event after an observation: that of the merge where it lands and is significant, or the old one. */
  lemma {:induction false} LinkAfter(env: Env, st: Store, o: Observation, scan: seq<nat>, id: nat)
    requires Vocabulary(env) && Inv(env, st) && Normalized(env, o) && id in st.events
    ensures var after, row := Next(env, st, Observe(o, scan)), st.events[id];
            && id in after.events
            && after.events[id].externalUrl ==
               if FindExisting(env, st, o, scan).target == Some(id)
                  && Significant(env, row, o.listing, IsReplay(st, o), IsRevision(st, o))
               then Updated(env, row, o.listing, IsReplay(st, o), IsRevision(st, o)).externalUrl
               else row.externalUrl
  {
    ProcessTouchesOneEvent(env, st, o, scan);
    RouteFlags(env, st, o, scan);
  }

  /** The observation brings no link, but the right to replace the stored one. */
  predicate TakesLink(env: Env, row: Listing, s: Listing, replayed: bool, revised: bool) {
    && IsMissing(s.externalUrl)
    && (|| Authoritative(row, s, replayed, revised)
        || (s.sourceTier < row.sourceTier && Significant(env, row, s, replayed, revised)))
  }

  /** An authority that drops a published link differs from the row, so it is never passed over. */
  lemma {:induction false} AuthorityIsSignificant(env: Env, row: Listing, s: Listing, replayed: bool, revised: bool)
    requires !IsMissing(row.externalUrl)
    ensures IsMissing(s.externalUrl) && Authoritative(row, s, replayed, revised) ==>
              Significant(env, row, s, replayed, revised)
  {
    var e := EventToPayload(env, row);
    if IsMissing(s.externalUrl) && Authoritative(row, s, replayed, revised) {
      assert Authoritative(e, s, replayed, revised) && !HeldBack(e, s, replayed);
      assert Merged(env, e, s, replayed, revised).listing.externalUrl == s.externalUrl;
    }
  }
}
