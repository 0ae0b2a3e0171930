/**
 The ingest run on mutable tables: rows and records are updated in place, each
 observation inside a savepoint, and chunks of observations become durable one
 commit at a time.
 */
module IngestSession {
  import opened Prelude
  import opened Lists
  import opened Listings
  import opened Matching
  import opened Merging
  import opened Ingest
  import opened Invariants

  datatype Summary = Summary(inserted: nat, updated: nat, skipped: nat, deduped: nat, rejected: nat)

  /** What one observation came to: its event, whether it was inserted, whether it was updated. */
  type Landing = Option<(nat, bool, bool)>

  /** The events a run touched, and how many observations it rejected. */
  datatype Tally = Tally(inserted: set<nat>, updated: set<nat>, seen: set<nat>, rejected: nat) {

    function Count(landed: Landing): Tally {
      match landed
      case None => this.(rejected := rejected + 1)
      case Some((id, isNew, isUpdate)) =>
        Tally(if isNew then inserted + {id} else inserted, if isUpdate then updated + {id}
              else updated, seen + {id}, rejected)
    }

    function Summarize(): Summary {
      Summary(|inserted|, |updated - inserted|, |seen - inserted - updated|, |seen|, rejected)
    }

    /** Inserted, updated and skipped events partition the events seen. */
    lemma {:induction false} SummaryAddsUp()
      requires inserted <= seen && updated <= seen
      ensures Summarize().inserted + Summarize().updated + Summarize().skipped == Summarize().deduped
    {
      var rest := seen - inserted - updated;
      assert seen == inserted + (updated - inserted) + rest;
      assert |inserted + (updated - inserted)| == |inserted| + |updated - inserted|;
    }
  }

  /** The tally after `n` landings, one turn of the loop each. */
  function TallyOf(landings: nat -> Landing, n: nat, invalid: nat): Tally {
    if n == 0 then Tally({}, {}, {}, invalid) else TallyOf(landings, n - 1, invalid).Count(landings(n - 1))
  }

  function SeenIds(landings: nat -> Landing, n: nat): set<nat> {
    set i | 0 <= i < n && landings(i).Some? :: landings(i).value.0
  }

  function InsertedIds(landings: nat -> Landing, n: nat): set<nat> {
    set i | 0 <= i < n && landings(i).Some? && landings(i).value.1 :: landings(i).value.0
  }

  function UpdatedIds(landings: nat -> Landing, n: nat): set<nat> {
    set i | 0 <= i < n && landings(i).Some? && landings(i).value.2 :: landings(i).value.0
  }

  function RejectedAt(landings: nat -> Landing, n: nat): set<nat> {
    set i: nat | 0 <= i < n && landings(i).None?
  }

  /**
   The summary a run owes its caller: the events its observations inserted, updated and
   left alone, and the rejections.
   */
  function SummaryOf(landings: nat -> Landing, n: nat, invalid: nat): Summary {
    var inserted, updated, seen := InsertedIds(landings, n), UpdatedIds(landings, n), SeenIds(landings, n);
    Summary(|inserted|, |updated - inserted|, |seen - inserted - updated|, |seen|, invalid + |RejectedAt(landings, n)|)
  }

  lemma {:induction false} SeenGrows(landings: nat -> Landing, n: nat)
    ensures SeenIds(landings, n + 1) == SeenIds(landings, n) + (if landings(n).Some? then {landings(n).value.0} else {})
  {
  }

  lemma {:induction false} RejectedGrow(landings: nat -> Landing, n: nat)
    ensures |RejectedAt(landings, n + 1)| == |RejectedAt(landings, n)| + (if landings(n).None? then 1 else 0)
  {
    assert n !in RejectedAt(landings, n);
    assert RejectedAt(landings, n + 1) == RejectedAt(landings, n) + (if landings(n).None? then {n} else {});
  }

  lemma {:induction false} ChangedGrow(landings: nat -> Landing, n: nat)
    ensures InsertedIds(landings, n + 1) ==
            InsertedIds(landings, n) + (if landings(n).Some? && landings(n).value.1 then {landings(n).value.0} else {})
    ensures UpdatedIds(landings, n + 1) ==
            UpdatedIds(landings, n) + (if landings(n).Some? && landings(n).value.2 then {landings(n).value.0} else {})
  {
  }

  lemma {:induction false} TallyIds(landings: nat -> Landing, n: nat, invalid: nat)
    ensures TallyOf(landings, n, invalid).inserted == InsertedIds(landings, n)
    ensures TallyOf(landings, n, invalid).updated == UpdatedIds(landings, n)
  {
    if n > 0 {
      TallyIds(landings, n - 1, invalid);
      ChangedGrow(landings, n - 1);
    }
  }

  lemma {:induction false} TallySeen(landings: nat -> Landing, n: nat, invalid: nat)
    ensures TallyOf(landings, n, invalid).seen == SeenIds(landings, n)
    ensures TallyOf(landings, n, invalid).rejected == invalid + |RejectedAt(landings, n)|
  {
    if n > 0 {
      TallySeen(landings, n - 1, invalid);
      SeenGrows(landings, n - 1);
      RejectedGrow(landings, n - 1);
    }
  }

  /** The running tally is exactly what the landings say, so the summary made of it is the one owed. */
  lemma {:induction false} TallyIsExact(landings: nat -> Landing, n: nat, invalid: nat)
    ensures TallyOf(landings, n, invalid).Summarize() == SummaryOf(landings, n, invalid)
  {
    TallyIds(landings, n, invalid);
    TallySeen(landings, n, invalid);
  }

  /** Every inserted or updated event was seen, so the three counts add up to the events seen. */
  lemma {:induction false} SummaryOfAddsUp(landings: nat -> Landing, n: nat, invalid: nat)
    ensures var summary := SummaryOf(landings, n, invalid);
      summary.inserted + summary.updated + summary.skipped == summary.deduped
  {
    TallyIsExact(landings, n, invalid);
    TallyIds(landings, n, invalid);
    TallySeen(landings, n, invalid);
    ChangedWereSeen(landings, n);
    TallyOf(landings, n, invalid).SummaryAddsUp();
  }

  lemma {:induction false} ChangedWereSeen(landings: nat -> Landing, n: nat)
    ensures InsertedIds(landings, n) <= SeenIds(landings, n) && UpdatedIds(landings, n) <= SeenIds(landings, n)
  {
  }

  class Session {
    var events: map<nat, Listing>
    var records: map<Identity, Record>
    var nextId: nat
    var committed: Store

    function Contents(): Store
      reads this
    {
      Store(events, records, nextId)
    }

    constructor ()
      ensures Contents() == EMPTY && committed == EMPTY
    {
      events, records, nextId := map[], map[], 0;
      committed := EMPTY;
    }

    /** `_apply_payload`: write a merge back into its row. */
    method ApplyPayload(id: nat, m: Merge)
      requires id in events
      modifies this`events
      ensures events == old(events)[id := Applied(old(events)[id], m)]
    {
      var row := events[id];
      var status := row.status;
      if m.allowStatusReset || Severity(m.listing.status) > Severity(row.status) {
        status := m.listing.status;
      }
      events := events[id := m.listing.(city := row.city, confidence := ClampConfidence(m.listing.confidence),
                                        status := status)];
    }

    /** `_remember_source_records`: restate the provider's facts, then patch the event's label lists. */
    method RememberSourceRecords(id: nat, o: Observation, priorPerformers: seq<string>, priorGenres: seq<string>)
      returns (r: Result<bool, StoreError>)
      requires id in events
      modifies this`events, this`records
      ensures var spec := Remember(old(Contents()), id, o, priorPerformers, priorGenres);
              if spec.Ok? then Contents() == spec.value.store && r == Ok(spec.value.changed)
              else Contents() == old(Contents()) && r == Err(spec.error)
    {
      if !Stable(o.listing) {
        return Ok(false);
      }
      var k := IdentityOf(o.listing);
      var retracted := Record(id, "", [], []);
      if k in records {
        retracted := records[k];
        if retracted.eventId != id {
          return Err(IdentityConflict);
        }
      }
      var facts := Record(id, o.hash, Restated(retracted.performers, o.listing.performers),
                          Restated(retracted.genres, o.listing.genres));
      records := records[k := facts];
      var row := events[id];
      var performers := UpdateLabels(priorPerformers, retracted.performers, PublishedFor(records, id, row, Performers));
      var genres := UpdateLabels(priorGenres, retracted.genres, PublishedFor(records, id, row, Genres));
      events := events[id := row.(performers := performers, genres := genres)];
      r := Ok(performers != priorPerformers || genres != priorGenres);
    }

    /** The insert branch of `_process_observation`. */
    method InsertObservation(o: Observation) returns (r: Result<(nat, bool, bool), StoreError>)
      modifies this`events, this`records, this`nextId
      ensures Matches(Land(old(Contents()), o, None, o.listing.(city := None), false), old(Contents()), r)
    {
      var savepoint := Contents();
      var id := nextId;
      events, nextId := events[id := o.listing.(city := None)], nextId + 1;
      var changed := RememberSourceRecords(id, o, o.listing.performers, o.listing.genres);
      if changed.Err? {
        events, records, nextId := savepoint.events, savepoint.records, savepoint.nextId;
        return Err(changed.error);
      }
      r := Ok((id, true, false));
    }

    /** The update branch of `_process_observation`. */
    method UpdateObservation(env: Env, o: Observation, route: Route) returns (r: Result<(nat, bool, bool), StoreError>)
      requires route.target.Some? && route.target.value in events
      modifies this`events, this`records
      ensures Matches(Land(old(Contents()), o, route.target, Base(env, old(Contents()), o, route),
                           IsSignificant(env, old(Contents()), o, route)),
                      old(Contents()), r)
    {
      var savepoint := Contents();
      var id := route.target.value;
      var row := events[id];
      var updated := false;
      if Significant(env, row, o.listing, route.replayed, route.revised) {
        var m := MergeEventPayloads(env, EventToPayload(env, row), o.listing, route.replayed, route.revised);
        ApplyPayload(id, m);
        updated := true;
      } else {
        assert events[id := row] == events;
      }
      var changed := RememberSourceRecords(id, o, row.performers, row.genres);
      if changed.Err? {
        events, records := savepoint.events, savepoint.records;
        return Err(changed.error);
      }
      r := Ok((id, false, updated || changed.value));
    }

    /** The tables and the answer are those of the specification; a refusal leaves the tables of before. */
    ghost predicate Matches(spec: Result<Outcome, StoreError>, before: Store, r: Result<(nat, bool, bool), StoreError>)
      reads this
    {
      if spec.Ok? then Contents() == spec.value.store
          && r == Ok((spec.value.id, spec.value.inserted, spec.value.updated))
      else Contents() == before && r == Err(spec.error)
    }

    /** `_process_observation` inside its savepoint: a refused observation leaves no trace. */
    method ProcessObservation(env: Env, o: Observation, scan: seq<nat>)
      returns (r: Result<(nat, bool, bool), StoreError>)
      modifies this`events, this`records, this`nextId
      ensures Matches(Process(env, old(Contents()), o, scan), old(Contents()), r)
    {
      var route := FindExisting(env, Contents(), o, scan);
      if route.target.None? {
        r := InsertObservation(o);
      } else {
        r := UpdateObservation(env, o, route);
      }
    }

    method Commit()
      modifies this`committed
      ensures committed == Contents()
    {
      committed := Contents();
    }

    method Rollback()
      modifies this`events, this`records, this`nextId
      ensures Contents() == committed
    {
      events, records, nextId := committed.events, committed.records, committed.nextId;
    }

    /**
     `_mark_past_events`, in a session of its own: the scheduled events that ended
     before the cutoff become past, nothing else changes, and no such event is left.
     */
    method MarkPastEvents(cutoff: int)
      requires committed == Contents()
      modifies this
      ensures committed == Contents() == MarkPast(old(Contents()), cutoff)
      ensures records == old(records) && nextId == old(nextId) && events.Keys == old(events.Keys)
      ensures forall id :: id in events ==>
                var row := old(events)[id];
                var over := (if row.endAt.Some? then row.endAt.value else row.startAt) < cutoff;
                events[id] == if over && row.status == "scheduled" then row.(status := "past") else row
    {
      events := map id | id in events ::
        if IsOverdue(events[id], cutoff) then events[id].(status := "past") else events[id];
      Commit();
      assert Contents() == MarkPast(old(Contents()), cutoff);
    }

    /** One turn of the loop: the observation lands and is counted, or its savepoint is rolled back. */
    method HandleAt(env: Env, input: Input, before: Tally) returns (tally: Tally)
      requires !input.Lifecycle?
      modifies this`events, this`records, this`nextId
      ensures Contents() == Next(env, old(Contents()), input)
      ensures tally == before.Count(LandingOf(env, old(Contents()), input))
    {
      var landed: Landing := None;
      if input.Observe? {
        var r := ProcessObservation(env, input.o, input.scan);
        if r.Ok? { landed := Some(r.value); }
      }
      tally := before.Count(landed);
    }

    /**
     The observation loop of `process_raw_events`: a commit before every full
     chunk, one savepoint per observation. `crashAt` is the turn before which the
     process fails, if it does; what was not committed is then lost.
     */
    method HandleAll(env: Env, invalid: nat, inputs: seq<Input>, due: nat -> bool, crashAt: Option<nat>,
                     ghost states: nat -> Store, ghost landings: nat -> Landing)
      returns (tally: Tally, crashed: bool)
      requires StatesAlong(env, Contents(), inputs, states) && LandingsAlong(env, inputs, states, landings)
      requires OnlyObservations(inputs)
      requires Contents() == committed
      modifies this
      ensures crashed <==> crashAt.Some? && crashAt.value <= |inputs|
      ensures crashed ==> Contents() == committed == states(Durable(crashAt.value, due))
      ensures !crashed ==> Contents() == states(|inputs|) && tally == TallyOf(landings, |inputs|, invalid)
    {
      tally := Tally({}, {}, {}, invalid);
      var index := 0;
      while index < |inputs| && crashAt != Some(index)
        invariant index <= |inputs| && (crashAt.Some? ==> crashAt.value >= index)
        invariant Contents() == states(index)
        invariant committed == states(Durable(index, due))
        invariant tally == TallyOf(landings, index, invalid)
      {
        if index > 0 && due(index) {
          Commit();
        }
        assert states(index + 1) == Next(env, states(index), inputs[index])
               && landings(index) == LandingOf(env, states(index), inputs[index]);
        tally := HandleAt(env, inputs[index], tally);
        assert tally == TallyOf(landings, index + 1, invalid) && Contents() == states(index + 1);
        index := index + 1;
      }
      crashed := crashAt == Some(index);
      if crashed {
        Rollback();
      }
    }

    /**
     `process_raw_events`. `invalid` payloads did not normalise; `inputs` says what
     each of the others meets: a savepoint that holds, or a refusal by the database.
     A run that finishes is durable and reports exactly what its observations came
     to; a run that crashes keeps exactly the chunks committed before the crash.
     */
    method ProcessRawEvents(env: Env, invalid: nat, inputs: seq<Input>, commitEvery: nat, crashAt: Option<nat>)
      returns (summary: Option<Summary>)
      requires commitEvery >= 1
      requires OnlyObservations(inputs)
      modifies this
      ensures summary.Some? <==> crashAt.None? || crashAt.value > |inputs|
      ensures summary.Some? ==>
                && Contents() == committed == Run(env, old(Contents()), inputs)
                && summary.value == SummaryOf(LandingsOf(env, old(Contents()), inputs), |inputs|, invalid)
                && summary.value.inserted + summary.value.updated + summary.value.skipped == summary.value.deduped
      ensures summary.None? ==>
                Contents() == committed == Run(env, old(Contents()), inputs[..Durable(crashAt.value, Due(commitEvery))])
    {
      ghost var start := Contents();
      ghost var states, landings := StatesOf(env, start, inputs), LandingsOf(env, start, inputs);
      StatesFollow(env, start, inputs);
      Commit();
      var tally, crashed := HandleAll(env, invalid, inputs, Due(commitEvery), crashAt, states, landings);
      if crashed {
        return None;
      }
      Commit();
      assert inputs[..|inputs|] == inputs;
      TallyIsExact(landings, |inputs|, invalid);
      SummaryOfAddsUp(landings, |inputs|, invalid);
      summary := Some(tally.Summarize());
    }
  }

  /** What an input comes to in a store. */
  function LandingOf(env: Env, st: Store, input: Input): Landing {
    match input
    case Observe(o, scan) =>
      (var r := Process(env, st, o, scan); if r.Ok? then Some((r.value.id, r.value.inserted, r.value.updated))
       else None)
    case _ => None
  }

  /** `index % commit_every == 0` */
  function Due(commitEvery: nat): nat -> bool
    requires commitEvery >= 1
  {
    (index: nat) => index % commitEvery == 0
  }

  /** The last commit point at or before observation `index`. */
  function LastCommit(index: nat, due: nat -> bool): (n: nat)
    ensures n <= index
  {
    if index == 0 || due(index) then index else LastCommit(index - 1, due)
  }

  /** It is the last multiple of the chunk size, so less than one chunk is ever lost. */
  lemma {:induction false} LastCommitIsLatest(index: nat, commitEvery: nat, m: nat)
    requires commitEvery >= 1
    ensures LastCommit(index, Due(commitEvery)) % commitEvery == 0
    ensures LastCommit(index, Due(commitEvery)) < m <= index ==> m % commitEvery != 0
  {
    if index != 0 && index % commitEvery != 0 {
      LastCommitIsLatest(index - 1, commitEvery, m);
    }
  }

  /** How many observations are durable when the run fails before the turn of observation `index`. */
  function Durable(index: nat, due: nat -> bool): (n: nat)
    ensures n <= index
  {
    if index == 0 then 0 else LastCommit(index - 1, due)
  }

  /** What the pipeline handles: the lifecycle sweep is a step of its own. */
  ghost predicate OnlyObservations(inputs: seq<Input>) {
    forall i :: 0 <= i < |inputs| ==> !inputs[i].Lifecycle?
  }

  /** The states a run passes through, one per handled observation. */
  ghost predicate StatesAlong(env: Env, st: Store, inputs: seq<Input>, states: nat -> Store) {
    states(0) == st && forall i: nat {:trigger inputs[i]} :: i < |inputs| ==>
          states(i + 1) == Next(env, states(i), inputs[i])
  }

  ghost predicate LandingsAlong(env: Env, inputs: seq<Input>, states: nat -> Store, landings: nat -> Landing) {
    forall i: nat {:trigger inputs[i]} :: i < |inputs| ==> landings(i) == LandingOf(env, states(i), inputs[i])
  }

  function StatesOf(env: Env, st: Store, inputs: seq<Input>): nat -> Store {
    (n: nat) => if n <= |inputs| then Run(env, st, inputs[..n]) else st
  }

  function LandingsOf(env: Env, st: Store, inputs: seq<Input>): nat -> Landing {
    (i: nat) => if i < |inputs| then LandingOf(env, Run(env, st, inputs[..i]), inputs[i]) else None
  }

  lemma {:induction false} StatesFollow(env: Env, st: Store, inputs: seq<Input>)
    ensures StatesAlong(env, st, inputs, StatesOf(env, st, inputs))
    ensures LandingsAlong(env, inputs, StatesOf(env, st, inputs), LandingsOf(env, st, inputs))
  {
    var states := StatesOf(env, st, inputs);
    assert inputs[..0] == [];
    forall i: nat | i < |inputs|
      ensures states(i + 1) == Next(env, states(i), inputs[i])
    {
      RunStep(env, st, inputs, i);
    }
  }

  /** From a good store nothing but a refusal by the database rejects an observation. */
  lemma {:induction false} RejectedAreRefused(env: Env, st: Store, inputs: seq<Input>)
    requires Vocabulary(env) && Inv(env, st) && ValidRun(env, st, inputs)
    requires OnlyObservations(inputs)
    ensures RejectedAt(LandingsOf(env, st, inputs), |inputs|) == set i: nat | 0 <= i < |inputs| && inputs[i].Refused?
  {
    forall i: nat | i < |inputs|
      ensures LandingsOf(env, st, inputs)(i).None? <==> inputs[i].Refused?
    {
      ValidPrefix(env, st, inputs, i);
      RunKeepsInv(env, st, inputs[..i]);
      if inputs[i].Observe? {
        ProcessTouchesOneEvent(env, Run(env, st, inputs[..i]), inputs[i].o, inputs[i].scan);
      }
    }
  }

  /** The rows of `after` are those of `before`, and the one inserted. */
  ghost predicate AddsRow(before: Store, after: Store, landing: Landing) {
    if landing.Some? && landing.value.1
    then after.events.Keys == before.events.Keys + {landing.value.0} && landing.value.0 !in before.events
    else after.events.Keys == before.events.Keys
  }

  lemma {:induction false} OneLanding(env: Env, st: Store, input: Input)
    requires Indexed(st)
    ensures AddsRow(st, Next(env, st, input), LandingOf(env, st, input))
  {
    match input
    case Observe(o, scan) => ObservationAddsRow(env, st, o, scan);
    case Refused(_) =>
    case Lifecycle(cutoff) => assert MarkPast(st, cutoff).events.Keys == st.events.Keys;
  }

  lemma {:induction false} ObservationAddsRow(env: Env, st: Store, o: Observation, scan: seq<nat>)
    requires Indexed(st)
    ensures var r := Process(env, st, o, scan);
      r.Ok? && AddsRow(st, r.value.store, Some((r.value.id, r.value.inserted, r.value.updated)))
  {
    var route := FindExisting(env, st, o, scan);
    ProcessTouchesOneEvent(env, st, o, scan);
    LandedAddsRow(st, o, route.target, Base(env, st, o, route), Process(env, st, o, scan).value);
  }

  lemma {:induction false} LandedAddsRow(st: Store, o: Observation, target: Option<nat>, row: Listing, out: Outcome)
    requires FreshId(st) && (target.Some? ==> target.value in st.events) && Landed(st, o, target, row, out)
    ensures AddsRow(st, out.store, Some((out.id, out.inserted, out.updated)))
  {
    assert st.nextId !in st.events;
    assert target.Some? ==> st.events.Keys + {out.id} == st.events.Keys;
  }

  ghost predicate RowsFollow(inputs: seq<Input>, states: nat -> Store, landings: nat -> Landing) {
    forall i: nat {:trigger inputs[i]} :: i < |inputs| ==> AddsRow(states(i), states(i + 1), landings(i))
  }

  lemma {:induction false} RowsAlong(inputs: seq<Input>, states: nat -> Store, landings: nat -> Landing, n: nat)
    requires n <= |inputs| && RowsFollow(inputs, states, landings)
    ensures states(n).events.Keys == states(0).events.Keys + InsertedIds(landings, n)
    ensures states(0).events.Keys !! InsertedIds(landings, n)
  {
    if n > 0 {
      RowsAlong(inputs, states, landings, n - 1);
      ChangedGrow(landings, n - 1);
      var input := inputs[n - 1];
      assert AddsRow(states(n - 1), states(n - 1 + 1), landings(n - 1));
    }
  }

  /** The events counted as inserted are exactly the rows the run added. */
  lemma {:induction false} InsertedAreNewRows(env: Env, st: Store, inputs: seq<Input>)
    requires Vocabulary(env) && Inv(env, st) && ValidRun(env, st, inputs)
    ensures Run(env, st, inputs).events.Keys == st.events.Keys + InsertedIds(LandingsOf(env, st, inputs), |inputs|)
    ensures st.events.Keys !! InsertedIds(LandingsOf(env, st, inputs), |inputs|)
  {
    var states, landings := StatesOf(env, st, inputs), LandingsOf(env, st, inputs);
    forall i: nat | i < |inputs|
      ensures AddsRow(states(i), states(i + 1), landings(i))
    {
      ValidPrefix(env, st, inputs, i);
      RunKeepsInv(env, st, inputs[..i]);
      RunStep(env, st, inputs, i);
      OneLanding(env, Run(env, st, inputs[..i]), inputs[i]);
    }
    RowsAlong(inputs, states, landings, |inputs|);
    assert inputs[..|inputs|] == inputs && inputs[..0] == [];
  }
}
