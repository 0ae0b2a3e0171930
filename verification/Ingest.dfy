/**
 The ingest store: one observation is routed, merged if significant, and its
 provenance is remembered. Runs interleave observations, rejected observations
 and the lifecycle sweep; the invariants hold in every state a run reaches.
 */
module Ingest {
  import opened Prelude
  import opened Lists
  import opened Text
  import opened Listings
  import opened Matching
  import opened Merging
  import opened Sorting

  datatype StoreError = IdentityConflict | Rejected

  datatype Field = Performers | Genres

  function Facts(r: Record, f: Field): seq<string> {
    if f == Performers then r.performers else r.genres
  }

  function LabelsOf(l: Listing, f: Field): seq<string> {
    if f == Performers then l.performers else l.genres
  }

  predicate IsOwner(name: string, id: Option<string>, k: Identity) {
    k.name == name && Some(k.id) == id
  }

  /** The sort key of the records of one event: owner first, then name, then id. */
  predicate RecordLeq(name: string, id: Option<string>, a: Identity, b: Identity) {
    if IsOwner(name, id, a) != IsOwner(name, id, b) then IsOwner(name, id, a)
    else if a.name != b.name then LexLeq(a.name, b.name)
    else LexLeq(a.id, b.id)
  }

  function RecordOrder(name: string, id: Option<string>): (Identity, Identity) -> bool {
    (a, b) => RecordLeq(name, id, a, b)
  }

  /** The key is total, so sorting by it does not depend on how the records were listed. */
  lemma {:induction false} RecordOrderTotal(name: string, id: Option<string>)
    ensures TotalOrder(RecordOrder(name, id))
  {
    var leq := RecordOrder(name, id);
    forall a, b
      ensures leq(a, b) || leq(b, a)
      ensures leq(a, b) && leq(b, a) ==> a == b
    {
      LexTotal(a.name, b.name);
      LexTotal(a.id, b.id);
      if LexLeq(a.name, b.name) && LexLeq(b.name, a.name) { LexAntisymmetric(a.name, b.name); }
      if LexLeq(a.id, b.id) && LexLeq(b.id, a.id) { LexAntisymmetric(a.id, b.id); }
    }
    forall a, b, c | leq(a, b) && leq(b, c)
      ensures leq(a, c)
    {
      RecordLeqTransitive(name, id, a, b, c);
    }
  }

  lemma {:induction false} RecordLeqTransitive(name: string, id: Option<string>, a: Identity, b: Identity, c: Identity)
    requires RecordLeq(name, id, a, b) && RecordLeq(name, id, b, c)
    ensures RecordLeq(name, id, a, c)
  {
    if LexLeq(a.name, b.name) && LexLeq(b.name, c.name) { LexTransitive(a.name, b.name, c.name); }
    if LexLeq(a.id, b.id) && LexLeq(b.id, c.id) { LexTransitive(a.id, b.id, c.id); }
    if LexLeq(a.name, b.name) && LexLeq(b.name, a.name) { LexAntisymmetric(a.name, b.name); }
  }

  function RecordsOf(records: map<Identity, Record>, id: nat): set<Identity> {
    set k | k in records && records[k].eventId == id
  }

  /** The records of one event as `records.sort(key=...)` leaves them. */
  function SortedRecords(records: map<Identity, Record>, id: nat, owner: Listing): (keys: seq<Identity>)
    ensures forall k :: k in keys <==> k in records && records[k].eventId == id
    ensures SortedBy(RecordOrder(owner.sourceName, owner.sourceEventId), keys)
  {
    RecordOrderTotal(owner.sourceName, owner.sourceEventId);
    SortSetSpec(RecordOrder(owner.sourceName, owner.sourceEventId), RecordsOf(records, id));
    SortSet(RecordOrder(owner.sourceName, owner.sourceEventId), RecordsOf(records, id))
  }

  /** `[label for record in records for label in record.facts]` */
  function Published(records: map<Identity, Record>, keys: seq<Identity>, f: Field): seq<string>
    requires forall k :: k in keys ==> k in records
  {
    if keys == [] then [] else Facts(records[keys[0]], f) + Published(records, keys[1..], f)
  }

  function PublishedFor(records: map<Identity, Record>, id: nat, owner: Listing, f: Field): seq<string> {
    Published(records, SortedRecords(records, id, owner), f)
  }

  /** The stored list after one provider restates its facts: its old contribution leaves, the rest stays. */
  function UpdateLabels(prior: seq<string>, retracted: seq<string>, published: seq<string>): seq<string> {
    CatalogLabels(MergeLists(published, Without(prior, retracted)))
  }

  /** The provider's current facts: an empty list publishes nothing. */
  function Restated(before: seq<string>, published: seq<string>): seq<string> {
    if published != [] then published else before
  }

  datatype Remembered = Remembered(store: Store, changed: bool)

  /** `_remember_source_records` for an observation that was routed to event `id`. */
  function Remember(st: Store, id: nat, o: Observation, priorPerformers: seq<string>, priorGenres: seq<string>):
    (r: Result<Remembered, StoreError>)
    requires id in st.events
  {
    if !Stable(o.listing) then Ok(Remembered(st, false)) else
      var k := IdentityOf(o.listing);
      var was := if k in st.records then st.records[k] else Record(id, "", [], []);
      if was.eventId != id then Err(IdentityConflict) else
        var record := Record(id, o.hash, Restated(was.performers, o.listing.performers),
                             Restated(was.genres, o.listing.genres));
        var records := st.records[k := record];
        var performers := UpdateLabels(priorPerformers, was.performers,
                                       PublishedFor(records, id, st.events[id], Performers));
        var genres := UpdateLabels(priorGenres, was.genres, PublishedFor(records, id, st.events[id], Genres));
        var row := st.events[id].(performers := performers, genres := genres);
        Ok(Remembered(Store(st.events[id := row], records, st.nextId), performers != priorPerformers
                      || genres != priorGenres))
  }

  datatype Outcome = Outcome(store: Store, id: nat, inserted: bool, updated: bool)

  /** The row an observation finds and, if significant, revises; or the new row, whose city has no column. */
  function Base(env: Env, st: Store, o: Observation, route: Route): Listing
    requires route.target.Some? ==> route.target.value in st.events
  {
    if route.target.None? then o.listing.(city := None)
    else if IsSignificant(env, st, o, route) then
      Updated(env, st.events[route.target.value], o.listing, route.replayed, route.revised)
    else st.events[route.target.value]
  }

  predicate IsSignificant(env: Env, st: Store, o: Observation, route: Route)
    requires route.target.Some? ==> route.target.value in st.events
  {
    route.target.Some? && Significant(env, st.events[route.target.value], o.listing, route.replayed, route.revised)
  }

  /** Write the row back, or insert it under a fresh id, and remember where its facts came from. */
  function Land(st: Store, o: Observation, target: Option<nat>, row: Listing,
                significant: bool): (r: Result<Outcome, StoreError>)
    requires target.Some? ==> target.value in st.events
  {
    var id := target.GetOr(st.nextId);
    var prior := if target.Some? then st.events[id] else row;
    var placed := Store(st.events[id := row], st.records, if target.Some? then st.nextId else st.nextId + 1);
    var r := Remember(placed, id, o, prior.performers, prior.genres);
    if r.Err? then Err(r.error)
    else Ok(Outcome(r.value.store, id, target.None?, target.Some? && (significant || r.value.changed)))
  }

  /** `_process_observation` */
  function Process(env: Env, st: Store, o: Observation, scan: seq<nat>): (r: Result<Outcome, StoreError>) {
    var route := FindExisting(env, st, o, scan);
    Land(st, o, route.target, Base(env, st, o, route), IsSignificant(env, st, o, route))
  }

  /** Still scheduled, though it ended before the cutoff. */
  predicate IsOverdue(row: Listing, cutoff: int) {
    row.endAt.GetOr(row.startAt) < cutoff && row.status == "scheduled"
  }

  /** `_mark_past_events`: overdue rows become past. */
  function MarkPast(st: Store, cutoff: int): Store {
    st.(events := map id | id in st.events ::
          if IsOverdue(st.events[id], cutoff) then st.events[id].(status := "past") else st.events[id])
  }

  /**
   One thing that happens to the store. An observation may also be rejected by
   the database at any point; its savepoint then restores the old state.
   */
  datatype Input = Observe(o: Observation, scan: seq<nat>) | Refused(o: Observation) | Lifecycle(cutoff: int)

  function Next(env: Env, st: Store, input: Input): Store {
    match input
    case Observe(o, scan) => (var r := Process(env, st, o, scan); if r.Ok? then r.value.store else st)
    case Refused(_) => st
    case Lifecycle(cutoff) => MarkPast(st, cutoff)
  }

  const EMPTY: Store := Store(map[], map[], 0)

  function Run(env: Env, st: Store, inputs: seq<Input>): Store {
    if inputs == [] then st else Next(env, Run(env, st, inputs[..|inputs| - 1]), inputs[|inputs| - 1])
  }

  /** Inputs the pipeline can produce: normalised observations, complete scans. */
  ghost predicate ValidInput(env: Env, st: Store, input: Input) {
    input.Observe? ==> Normalized(env, input.o) && ScanOf(input.scan, st.events)
  }

  ghost predicate ValidRun(env: Env, st: Store, inputs: seq<Input>) {
    inputs == [] ||
    (ValidRun(env, st, inputs[..|inputs| - 1])
     && ValidInput(env, Run(env, st, inputs[..|inputs| - 1]), inputs[|inputs| - 1]))
  }

  ghost predicate ShortFacts(r: Record) {
    && (forall x :: x in r.performers ==> ShortLabel(x))
    && (forall x :: x in r.genres ==> ShortLabel(x))
  }

  ghost predicate StoredRow(env: Env, row: Listing) {
    CanonicalLists(env, row) && row.city == None && 0.0 <= row.confidence <= 1.0
  }

  /** Every event whose current identity is stable has a record that points back at it. */
  ghost predicate BackPointers(st: Store) {
    forall id :: id in st.events && Stable(st.events[id]) ==>
      IdentityOf(st.events[id]) in st.records && st.records[IdentityOf(st.events[id])].eventId == id
  }

  ghost predicate StoredRows(env: Env, st: Store) {
    forall id :: id in st.events ==> StoredRow(env, st.events[id])
  }

  ghost predicate ShortRow(row: Listing) {
    && (forall x :: x in row.performers ==> ShortLabel(x))
    && (forall x :: x in row.genres ==> ShortLabel(x))
  }

  ghost predicate StoredLabels(st: Store) {
    forall id :: id in st.events ==> ShortRow(st.events[id])
  }

  ghost predicate StoredFacts(st: Store) {
    forall k :: k in st.records ==> ShortFacts(st.records[k]) && st.records[k].hash != ""
  }

  ghost predicate FreshId(st: Store) {
    forall id :: id in st.events ==> id < st.nextId
  }

  /** The identity index is sound. */
  ghost predicate Indexed(st: Store) {
    RecordsPointAtRows(st) && BackPointers(st) && FreshId(st)
  }

  /** Everything stored has the shape normalisation gave it. */
  ghost predicate WellStored(env: Env, st: Store) {
    StoredRows(env, st) && StoredLabels(st) && StoredFacts(st)
  }

  ghost predicate Inv(env: Env, st: Store) {
    Indexed(st) && WellStored(env, st)
  }

  /** In a reachable state the identity index alone decides ownership: no row hides behind a missing record. */
  lemma {:induction false} RecordsDecideOwnership(st: Store, o: Listing)
    requires Indexed(st)
    ensures IdentityOwner(st, o) ==
            if Stable(o) && IdentityOf(o) in st.records then Some(st.records[IdentityOf(o)].eventId) else None
  {
    if Stable(o) && IdentityOf(o) !in st.records {
      forall id | id in st.events
        ensures id !in IdsOwning(st.events, o)
      {
        assert Stable(st.events[id]) ==> IdentityOf(st.events[id]) in st.records;
      }
      assert IdsOwning(st.events, o) == {};
    }
  }

  /** Equal except for the two label lists that provenance recomputes. */
  predicate SameButLabels(a: Listing, b: Listing) {
    a == b.(performers := a.performers, genres := a.genres)
  }

  /** Remembering touches the routed event's labels and the observation's own record. */
  lemma {:induction false} RememberTouchesOneRecord(st: Store, id: nat, o: Observation, pp: seq<string>,
                                                    pg: seq<string>)
    requires id in st.events
    requires Stable(o.listing) && IdentityOf(o.listing) in st.records ==>
               st.records[IdentityOf(o.listing)].eventId == id
    ensures Remember(st, id, o, pp, pg).Ok?
    ensures var after := Remember(st, id, o, pp, pg).value.store;
            && after.nextId == st.nextId
            && after.events.Keys == st.events.Keys
            && (forall other :: other in st.events && other != id ==> after.events[other] == st.events[other])
            && SameButLabels(after.events[id], st.events[id])
            && (!Stable(o.listing) ==> after == st)
            && (Stable(o.listing) ==> OwnRecordOnly(st, after, id, o))
  {
  }

  ghost predicate OwnRecordOnly(st: Store, after: Store, id: nat, o: Observation)
    requires Stable(o.listing)
  {
    var k := IdentityOf(o.listing);
    && after.records.Keys == st.records.Keys + {k}
    && after.records[k].eventId == id && after.records[k].hash == o.hash
    && (forall other :: other in st.records && other != k ==> after.records[other] == st.records[other])
  }

  lemma {:induction false} LandTouchesOneEvent(st: Store, o: Observation, target: Option<nat>, row: Listing,
                                               significant: bool)
    requires target.Some? ==> target.value in st.events
    requires Stable(o.listing) && IdentityOf(o.listing) in st.records ==>
               target == Some(st.records[IdentityOf(o.listing)].eventId)
    ensures Land(st, o, target, row, significant).Ok?
    ensures Landed(st, o, target, row, Land(st, o, target, row, significant).value)
  {
    var id := target.GetOr(st.nextId);
    var prior := if target.Some? then st.events[id] else row;
    var placed := Store(st.events[id := row], st.records, if target.Some? then st.nextId else st.nextId + 1);
    RememberTouchesOneRecord(placed, id, o, prior.performers, prior.genres);
    var after := Remember(placed, id, o, prior.performers, prior.genres).value.store;
    assert Land(st, o, target, row, significant).value.store == after;
    assert placed.events.Keys == st.events.Keys + {id};
  }

  /** The footprint of one observation: one event, its own record, nothing else. */
  ghost predicate Landed(st: Store, o: Observation, target: Option<nat>, row: Listing, out: Outcome) {
    && out.inserted == target.None?
    && out.id == target.GetOr(st.nextId)
    && out.store.nextId == st.nextId + (if out.inserted then 1 else 0)
    && out.store.events.Keys == st.events.Keys + {out.id}
    && (forall id :: id in st.events && id != out.id ==> out.store.events[id] == st.events[id])
    && SameButLabels(out.store.events[out.id], row)
    && (!Stable(o.listing) ==> out.store.records == st.records)
    && (Stable(o.listing) ==> OwnRecordOnly(st, out.store, out.id, o))
    && (Stable(o.listing) && IdentityOf(o.listing) in st.records ==>
          !out.inserted && st.records[IdentityOf(o.listing)].eventId == out.id)
  }

  /**
   What one observation does to a reachable store. It is never refused for an
   identity conflict; it touches one event and at most its own record; a record
   keeps its event, so a known identity is never inserted again; and the event's
   row is the inserted payload or the settled row.
   */
  lemma {:induction false} ProcessTouchesOneEvent(env: Env, st: Store, o: Observation, scan: seq<nat>)
    requires Indexed(st)
    ensures Process(env, st, o, scan).Ok?
    ensures var route := FindExisting(env, st, o, scan);
            Landed(st, o, route.target, Base(env, st, o, route), Process(env, st, o, scan).value)
  {
    RecordsDecideOwnership(st, o.listing);
    var route := FindExisting(env, st, o, scan);
    LandTouchesOneEvent(st, o, route.target, Base(env, st, o, route), IsSignificant(env, st, o, route));
  }
}
