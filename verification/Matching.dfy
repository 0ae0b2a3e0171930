/**
 Routing: which stored event, if any, a new observation describes. The store
 first asks the identity index, then runs a time-windowed query and keeps the
 candidates `IsDuplicate` accepts.
 */
module Matching {
  import opened Prelude
  import opened Text
  import opened Listings
  import opened Sorting

  const WINDOW: int := 2 * HOUR_MICROS
  const TITLE_THRESHOLD: real := 85.0
  const SAME_VENUE_TOKEN_THRESHOLD: real := 60.0

  /** The venue string up to its first parenthesis, stripped and case-folded. */
  function NormalizeVenue(env: Env, venue: Option<string>): string {
    if venue.None? then "" else env.fold(Strip(BeforeParen(venue.value)))
  }

  predicate SameVenue(env: Env, left: Option<string>, right: Option<string>) {
    NormalizeVenue(env, left) != "" && NormalizeVenue(env, left) == NormalizeVenue(env, right)
  }

  predicate SameExternalUrl(left: Option<string>, right: Option<string>) {
    && left.Some? && right.Some?
    && RStripSlashes(Strip(left.value)) != ""
    && RStripSlashes(Strip(left.value)) == RStripSlashes(Strip(right.value))
  }

  predicate StartsAreCompatible(env: Env, left: Listing, right: Listing) {
    if left.estimated || right.estimated then
      env.day(left.startAt) == env.day(right.startAt)
    else
      Abs(left.startAt - right.startAt) <= WINDOW
  }

  predicate IsDuplicate(env: Env, left: Listing, right: Listing) {
    if SameSourceIdentity(left, right) then true
    else if !StartsAreCompatible(env, left, right) then false
    else if NormalizeVenue(env, left.venueName) != "" && NormalizeVenue(env, right.venueName) != ""
            && !SameVenue(env, left.venueName, right.venueName) then false
    else if SameExternalUrl(left.externalUrl, right.externalUrl) then true
    else if env.textSimilarity(left.title, right.title) > TITLE_THRESHOLD then true
    else SameVenue(env, left.venueName, right.venueName)
         && env.tokenSimilarity(left.title, right.title) >= SAME_VENUE_TOKEN_THRESHOLD
  }

  function TitleScore(env: Env, row: Listing, o: Listing): real {
    MaxReal(env.textSimilarity(row.title, o.title), env.tokenSimilarity(row.title, o.title))
  }

  datatype Record = Record(eventId: nat, hash: string, performers: seq<string>, genres: seq<string>)

  datatype Store = Store(events: map<nat, Listing>, records: map<Identity, Record>, nextId: nat)

  /** The order in which an unordered SELECT happens to list the rows. */
  ghost predicate ScanOf(scan: seq<nat>, events: map<nat, Listing>) {
    forall id :: id in scan <==> id in events
  }

  /** The WHERE clause of the candidate query. */
  predicate TimeFilter(env: Env, row: Listing, o: Listing) {
    if o.estimated then
      env.dayStart(o.startAt) <= row.startAt < env.dayEnd(o.startAt)
    else
      || o.startAt - WINDOW <= row.startAt <= o.startAt + WINDOW
      || (row.estimated && env.dayStart(o.startAt) <= row.startAt < env.dayEnd(o.startAt))
  }

  /** The candidate rows `IsDuplicate` accepts, in scan order. */
  function Viable(env: Env, events: map<nat, Listing>, o: Listing, scan: seq<nat>): seq<nat> {
    if scan == [] then [] else
      var rest := Viable(env, events, o, scan[1..]);
      var id := scan[0];
      if id in events && TimeFilter(env, events[id], o) && IsDuplicate(env, events[id], o) then [id] + rest else rest
  }

  /** `max(viable, key=score)`: the first row with the highest score. */
  function Best(env: Env, events: map<nat, Listing>, o: Listing, viable: seq<nat>): (best: nat)
    requires viable != []
    requires forall id :: id in viable ==> id in events
    ensures best in viable
    ensures forall id :: id in viable ==> TitleScore(env, events[id], o) <= TitleScore(env, events[best], o)
  {
    if |viable| == 1 then viable[0] else
      var rest := Best(env, events, o, viable[1..]);
      if TitleScore(env, events[viable[0]], o) >= TitleScore(env, events[rest], o) then viable[0] else rest
  }

  function IdsOwning(events: map<nat, Listing>, o: Listing): set<nat> {
    set id | id in events && events[id].sourceName == o.sourceName && events[id].sourceEventId == o.sourceEventId
  }

  function NatLeq(): (nat, nat) -> bool {
    (a, b) => a <= b
  }

  /**
   Where an observation goes, and what its stored hash says about it: `replayed`
   when the provider published nothing new, `revised` when it did. Both stay
   false for an identity the store has not seen.
   */
  datatype Route = Route(target: Option<nat>, replayed: bool, revised: bool)

  function FuzzyMatch(env: Env, st: Store, o: Listing, scan: seq<nat>): (found: Option<nat>)
    ensures found.Some? ==> found.value in st.events && IsDuplicate(env, st.events[found.value], o)
  {
    var viable := Viable(env, st.events, o, scan);
    ViableMembers(env, st.events, o, scan);
    if viable == [] then None else Some(Best(env, st.events, o, viable))
  }

  /** The row that owns a stable identity: by its record, else the oldest row stored under that identity. */
  function IdentityOwner(st: Store, o: Listing): (owner: Option<nat>)
    ensures owner.Some? ==> owner.value in st.events
  {
    if !Stable(o) then None
    else if IdentityOf(o) in st.records then
      var id := st.records[IdentityOf(o)].eventId;
      if id in st.events then Some(id) else None
    else if IdsOwning(st.events, o) != {} then Some(Least(NatLeq(), IdsOwning(st.events, o)))
    else None
  }

  function FindExisting(env: Env, st: Store, o: Observation, scan: seq<nat>): (r: Route)
    ensures r.target.Some? ==> r.target.value in st.events
  {
    var known := Stable(o.listing) && IdentityOf(o.listing) in st.records;
    var comparable := known && o.hash != "" && st.records[IdentityOf(o.listing)].hash != "";
    var same := comparable && o.hash == st.records[IdentityOf(o.listing)].hash;
    var owner := IdentityOwner(st, o.listing);
    Route(if owner.Some? then owner else FuzzyMatch(env, st, o.listing, scan), same, comparable && !same)
  }

  lemma {:induction false} ViableMembers(env: Env, events: map<nat, Listing>, o: Listing, scan: seq<nat>)
    ensures forall id :: id in Viable(env, events, o, scan) <==>
              id in scan && id in events && TimeFilter(env, events[id], o) && IsDuplicate(env, events[id], o)
  {
    if scan != [] {
      ViableMembers(env, events, o, scan[1..]);
      assert scan == [scan[0]] + scan[1..];
    }
  }

  /** The window of the query drops no compatible row, in all four real/estimated combinations. */
  lemma {:induction false} TimeFilterKeepsCompatible(env: Env, row: Listing, o: Listing)
    requires Calendar(env)
    ensures StartsAreCompatible(env, row, o) ==> TimeFilter(env, row, o)
    ensures o.estimated ==> (TimeFilter(env, row, o) <==> StartsAreCompatible(env, row, o))
    ensures !o.estimated && !row.estimated ==> (TimeFilter(env, row, o) <==> StartsAreCompatible(env, row, o))
  {
    assert env.day(o.startAt) == env.day(row.startAt) <==>
           env.dayStart(o.startAt) <= row.startAt < env.dayEnd(o.startAt);
  }

  /** The two name venues, and not the same one. */
  predicate VenuesClash(env: Env, left: Option<string>, right: Option<string>) {
    var a, b := NormalizeVenue(env, left), NormalizeVenue(env, right);
    a != "" && b != "" && a != b
  }

  /** The starts are at most two hours apart, or on one local day where either is a guess. */
  predicate CloseInTime(env: Env, row: Listing, o: Listing) {
    if row.estimated || o.estimated then env.day(row.startAt) == env.day(o.startAt)
    else row.startAt <= o.startAt + 7200000000 && o.startAt <= row.startAt + 7200000000
  }

  /** One link, a title similar by more than 85, or one venue and title words similar by 60 at least. */
  predicate Corroborates(env: Env, row: Listing, o: Listing) {
    || (&& row.externalUrl.Some? && o.externalUrl.Some?
        && RStripSlashes(Strip(row.externalUrl.value)) == RStripSlashes(Strip(o.externalUrl.value)) != "")
    || env.textSimilarity(row.title, o.title) > 85.0
    || (&& NormalizeVenue(env, row.venueName) == NormalizeVenue(env, o.venueName) != ""
        && env.tokenSimilarity(row.title, o.title) >= 60.0)
  }

  /** The row may be the show the observation describes: close in time, no clash of venues, and some corroboration. */
  predicate SameShow(env: Env, row: Listing, o: Listing) {
    && CloseInTime(env, row, o)
    && !VenuesClash(env, row.venueName, o.venueName)
    && Corroborates(env, row, o)
  }

  /** Identities aside, exactly these pairs are taken for duplicates. */
  lemma {:induction false} DuplicatesExactly(env: Env, row: Listing, o: Listing)
    requires !SameSourceIdentity(row, o)
    ensures IsDuplicate(env, row, o) <==> SameShow(env, row, o)
  {
  }

  /** A row the whole-table rule would accept: it owns the identity, or it is a duplicate. */
  ghost predicate Accepts(env: Env, st: Store, o: Listing, id: nat) {
    && id in st.events
    && (|| (Stable(o) && IdentityOf(o) in st.records && st.records[IdentityOf(o)].eventId == id)
        || IsDuplicate(env, st.events[id], o))
  }

  /** Foreign keys: every record points at a stored row. */
  ghost predicate RecordsPointAtRows(st: Store) {
    forall k :: k in st.records ==> st.records[k].eventId in st.events
  }

  /**
   The identity index and the time-windowed query together refine a scan of the
   whole table: a row comes back exactly when some row is acceptable, and the
   row that comes back is one of those.
   */
  lemma {:induction false} FindExistingRefinesFullScan(env: Env, st: Store, o: Observation, scan: seq<nat>)
    requires Calendar(env) && RecordsPointAtRows(st) && ScanOf(scan, st.events)
    ensures FindExisting(env, st, o, scan).target.Some? <==> exists id :: Accepts(env, st, o.listing, id)
    ensures FindExisting(env, st, o, scan).target.Some? ==>
              Accepts(env, st, o.listing, FindExisting(env, st, o, scan).target.value)
  {
    var l := o.listing;
    var r := FindExisting(env, st, o, scan);
    ViableMembers(env, st.events, l, scan);
    if r.target.Some? {
      OwnerAccepts(env, st, l);
      assert Accepts(env, st, l, r.target.value);
    }
    forall id | Accepts(env, st, l, id)
      ensures r.target.Some?
    {
      var row := st.events[id];
      TimeFilterKeepsCompatible(env, row, l);
      if SameSourceIdentity(row, l) {
        assert id in IdsOwning(st.events, l);
      } else if IsDuplicate(env, row, l) {
        assert id in Viable(env, st.events, l, scan);
      }
    }
  }

  lemma {:induction false} OwnerAccepts(env: Env, st: Store, o: Listing)
    ensures IdentityOwner(st, o).Some? ==> Accepts(env, st, o, IdentityOwner(st, o).value)
  {
    if IdentityOwner(st, o).Some? && IdentityOf(o) !in st.records {
      var row := st.events[IdentityOwner(st, o).value];
      assert SameSourceIdentity(row, o);
    }
  }
}
