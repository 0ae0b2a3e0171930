/**
 The worker's checkpoint protocol: fetch, run the pipeline to its last commit,
 and only then let the source acknowledge what it read.
 */
module Checkpoint {
  import opened Prelude
  import opened Sorting
  import opened TicketmasterCrawl
  import opened Listings
  import opened Matching
  import opened Ingest
  import opened Invariants
  import opened IngestSession

  /**
   What becomes of one raw event in the pipeline: it does not normalise, or it is an
   observation the database takes or refuses.
   */
  datatype Payload = Invalid | Valid(o: Observation, refused: bool)

  /**
   The pipeline as one cycle meets it: how the source's listings are normalised,
   the payloads of the other sources around them, the order queries list rows in,
   the chunk size, and the turn before which the run fails, if it does.
   */
  datatype Ingestion = Ingestion(
    env: Env, read: RawEvent -> Payload, earlier: seq<Payload>, later: seq<Payload>,
    scan: Store -> seq<nat>, commitEvery: nat, crashAt: Option<nat>)

  ghost predicate NormalizedPayload(env: Env, p: Payload) {
    p.Valid? ==> Normalized(env, p.o)
  }

  ghost predicate ValidIngestion(env: Env, g: Ingestion) {
    && g.env == env && g.commitEvery >= 1
    && (forall e :: NormalizedPayload(env, g.read(e)))
    && (forall p :: p in g.earlier || p in g.later ==> NormalizedPayload(env, p))
    && (forall st :: ScanOf(g.scan(st), st.events))
  }

  /** Everything the pipeline is handed in a cycle. */
  function Batch(g: Ingestion, handed: seq<RawEvent>): seq<Payload> {
    g.earlier + Mapped(handed, g.read) + g.later
  }

  function InvalidCount(batch: seq<Payload>): nat {
    if batch == [] then 0 else InvalidCount(batch[..|batch| - 1]) + (if batch[|batch| - 1].Invalid? then 1 else 0)
  }

  predicate Rejects(p: Payload) {
    p.Invalid? || p.refused
  }

  function RejectedCount(batch: seq<Payload>): nat {
    if batch == [] then 0 else RejectedCount(batch[..|batch| - 1]) + (if Rejects(batch[|batch| - 1]) then 1 else 0)
  }

  /** The observations of a batch as the store meets them, one savepoint each. */
  function InputsOf(g: Ingestion, st: Store, batch: seq<Payload>): seq<Input> {
    if batch == [] then [] else
      var init := InputsOf(g, st, batch[..|batch| - 1]);
      match batch[|batch| - 1]
      case Invalid => init
      case Valid(o, refused) => init + [if refused then Refused(o) else Observe(o, g.scan(Run(g.env, st, init)))]
  }

  lemma {:induction false} ValidRunGrows(env: Env, st: Store, inputs: seq<Input>, input: Input)
    requires ValidRun(env, st, inputs) && ValidInput(env, Run(env, st, inputs), input)
    ensures ValidRun(env, st, inputs + [input])
  {
    assert (inputs + [input])[..|inputs|] == inputs;
  }

  lemma {:induction false} InputsAreValid(env: Env, g: Ingestion, st: Store, batch: seq<Payload>)
    requires ValidIngestion(env, g) && forall p :: p in batch ==> NormalizedPayload(env, p)
    ensures ValidRun(env, st, InputsOf(g, st, batch)) && OnlyObservations(InputsOf(g, st, batch))
  {
    if batch != [] {
      var last := batch[|batch| - 1];
      assert last in batch && NormalizedPayload(env, last);
      InputsAreValid(env, g, st, batch[..|batch| - 1]);
      var init := InputsOf(g, st, batch[..|batch| - 1]);
      if last.Valid? {
        var met := Run(env, st, init);
        assert ScanOf(g.scan(met), met.events);
        ValidRunGrows(env, st, init, if last.refused then Refused(last.o) else Observe(last.o, g.scan(met)));
      }
    }
  }

  /** Every payload the database takes is observed. */
  lemma {:induction false} TakenIsObserved(g: Ingestion, st: Store, batch: seq<Payload>, p: Payload) returns (at: nat)
    requires p in batch && !Rejects(p)
    ensures at < |InputsOf(g, st, batch)|
    ensures InputsOf(g, st, batch)[at].Observe? && InputsOf(g, st, batch)[at].o == p.o
  {
    var init := InputsOf(g, st, batch[..|batch| - 1]);
    if batch[|batch| - 1] == p {
      at := |init|;
    } else {
      assert batch == batch[..|batch| - 1] + [batch[|batch| - 1]];
      at := TakenIsObserved(g, st, batch[..|batch| - 1], p);
    }
  }

  /** The positions at which inputs are refusals. */
  function RefusedAt(inputs: seq<Input>): set<nat> {
    set i: nat | 0 <= i < |inputs| && inputs[i].Refused?
  }

  lemma {:induction false} RefusedGrow(inputs: seq<Input>, input: Input)
    ensures |RefusedAt(inputs + [input])| == |RefusedAt(inputs)| + (if input.Refused? then 1 else 0)
  {
    var more := inputs + [input];
    assert |inputs| !in RefusedAt(inputs);
    assert RefusedAt(more) == RefusedAt(inputs) + (if input.Refused? then {|inputs|} else {});
  }

  /** Invalid payloads and refusals are all the rejections there are. */
  lemma {:induction false} RejectionsCounted(g: Ingestion, st: Store, batch: seq<Payload>)
    ensures InvalidCount(batch) + |RefusedAt(InputsOf(g, st, batch))| == RejectedCount(batch)
  {
    if batch != [] {
      var last := batch[|batch| - 1];
      RejectionsCounted(g, st, batch[..|batch| - 1]);
      if last.Valid? {
        var init := InputsOf(g, st, batch[..|batch| - 1]);
        RefusedGrow(init, InputsOf(g, st, batch)[|init|]);
      }
    }
  }

  lemma {:induction false} NoneRejected(batch: seq<Payload>, p: Payload)
    requires RejectedCount(batch) == 0 && p in batch
    ensures !Rejects(p)
  {
    assert batch == batch[..|batch| - 1] + [batch[|batch| - 1]];
    if p != batch[|batch| - 1] {
      NoneRejected(batch[..|batch| - 1], p);
    }
  }

  /** How the ingest run of a cycle ends: before its last commit, or with some payloads rejected. */
  datatype PipelineRun = Failed | Finished(rejected: nat)

  /** Everything about one cycle that the worker does not decide. */
  datatype Conditions = Conditions(
    server: Server, size: int, horizonDays: int, now: int, filtered: bool, startedAt: int,
    createFails: bool, ingestion: Ingestion, saveFails: bool, pastCutoff: Option<int>)

  ghost predicate ValidConditions(env: Env, c: Conditions) {
    UniqueIds(c.server.corpus) && ValidIngestion(env, c.ingestion)
  }

  /** The source was created, its arguments were accepted, and its crawl met no error. */
  predicate FetchedWhole(c: Conditions) {
    !c.createFails && c.size >= 1 && c.horizonDays >= 1 && FetchEnd(c.server, c.size, c.horizonDays, c.now).1 == None
  }

  /** The fetched listings are everything the search was for. */
  ghost predicate ReadWhole(c: Conditions, handed: seq<RawEvent>) {
    forall e :: InSearch(c, e) ==> e in handed
  }

  predicate InSearch(c: Conditions, e: RawEvent) {
    e in c.server.corpus && e.mappable && InScope(e, c.now, c.now + c.horizonDays * MIN_WINDOW)
  }

  /** What a fetch may hand over. */
  ghost predicate HandedOver(c: Conditions, handed: seq<RawEvent>) {
    && (forall e :: e in handed ==> InSearch(c, e))
    && (FetchedWhole(c) ==> ReadWhole(c, handed))
  }

  function PipelineEnd(c: Conditions, handed: seq<RawEvent>, st: Store): PipelineRun {
    var batch := Batch(c.ingestion, handed);
    if c.ingestion.crashAt.Some? && c.ingestion.crashAt.value <= |InputsOf(c.ingestion, st, batch)| then Failed
    else Finished(RejectedCount(batch))
  }

  /** What a cycle did, as far as the checkpoint is concerned. */
  datatype Cycle = Cycle(startedAt: int, complete: bool, filtered: bool, pipeline: PipelineRun, saveFails: bool)

  /** The cycle its conditions, its handed-over listings and the store make it. */
  function CycleOf(c: Conditions, handed: seq<RawEvent>, st: Store): Cycle {
    Cycle(c.startedAt, FetchedWhole(c), c.filtered, PipelineEnd(c, handed, st), c.saveFails)
  }

  /** The store after a cycle: the whole run and the lifecycle sweep, or the chunks committed before a failure. */
  function StoreAfter(c: Conditions, handed: seq<RawEvent>, st: Store): Store
    requires c.ingestion.commitEvery >= 1
  {
    var g := c.ingestion;
    var inputs := InputsOf(g, st, Batch(g, handed));
    if PipelineEnd(c, handed, st).Failed? then Run(g.env, st, inputs[..Durable(g.crashAt.value, Due(g.commitEvery))])
    else if c.pastCutoff.Some? then MarkPast(Run(g.env, st, inputs), c.pastCutoff.value)
    else Run(g.env, st, inputs)
  }

  /** Everything the cycle searched for was normalised, and what has a stable identity is on record. */
  ghost predicate Persisted(c: Conditions, st: Store) {
    forall e :: InSearch(c, e) ==>
      && c.ingestion.read(e).Valid?
      && (Stable(c.ingestion.read(e).o.listing) ==> IdentityOf(c.ingestion.read(e).o.listing) in st.records)
  }

  /** The whole search was read, everything handed over was committed, and the save went through. */
  predicate Advances(c: Cycle) {
    c.complete && !c.filtered && c.pipeline == Finished(0) && !c.saveFails
  }

  lemma {:induction false} BatchMembers(env: Env, g: Ingestion, handed: seq<RawEvent>)
    requires ValidIngestion(env, g)
    ensures forall p :: p in Batch(g, handed) ==> NormalizedPayload(env, p)
    ensures forall e :: e in handed ==> g.read(e) in Batch(g, handed)
  {
    var read := Mapped(handed, g.read);
    forall e | e in handed
      ensures g.read(e) in read
    {
      var i :| 0 <= i < |handed| && handed[i] == e;
      assert read[i] == g.read(e);
    }
  }

  /** A cycle keeps the store good and forgets no record. */
  lemma {:induction false} CycleKeepsRecords(env: Env, c: Conditions, handed: seq<RawEvent>, st: Store)
    requires Vocabulary(env) && Inv(env, st) && ValidConditions(env, c)
    ensures Inv(env, StoreAfter(c, handed, st))
    ensures st.records.Keys <= StoreAfter(c, handed, st).records.Keys
  {
    var g := c.ingestion;
    var inputs := InputsOf(g, st, Batch(g, handed));
    BatchMembers(env, g, handed);
    InputsAreValid(env, g, st, Batch(g, handed));
    var kept := if PipelineEnd(c, handed, st).Failed? then Durable(g.crashAt.value, Due(g.commitEvery)) else |inputs|;
    assert inputs[..|inputs|] == inputs;
    PrefixKeepsRecords(env, st, inputs, kept);
    if c.pastCutoff.Some? {
      NextKeepsInv(env, Run(env, st, inputs[..kept]), Lifecycle(c.pastCutoff.value));
    }
  }

  lemma {:induction false} PrefixKeepsRecords(env: Env, st: Store, inputs: seq<Input>, n: nat)
    requires Vocabulary(env) && Inv(env, st) && ValidRun(env, st, inputs) && n <= |inputs|
    ensures Inv(env, Run(env, st, inputs[..n]))
    ensures st.records.Keys <= Run(env, st, inputs[..n]).records.Keys
  {
    ValidPrefix(env, st, inputs, n);
    RunKeepsInv(env, st, inputs[..n]);
    RunExtends(env, st, inputs[..n], 0);
    assert inputs[..n][..0] == [];
  }

  /** When a cycle advances, everything it searched for is on record in the store it leaves. */
  lemma {:induction false} AdvanceMeansPersisted(env: Env, c: Conditions, handed: seq<RawEvent>, st: Store)
    requires Vocabulary(env) && Inv(env, st) && ValidConditions(env, c) && HandedOver(c, handed)
    requires Advances(CycleOf(c, handed, st))
    ensures Persisted(c, StoreAfter(c, handed, st))
  {
    forall e | InSearch(c, e)
      ensures c.ingestion.read(e).Valid?
      ensures Stable(c.ingestion.read(e).o.listing) ==>
        IdentityOf(c.ingestion.read(e).o.listing) in StoreAfter(c, handed, st).records
    {
      HandedIsPersisted(env, c, handed, st, e);
    }
  }

  lemma {:induction false} HandedIsPersisted(env: Env, c: Conditions, handed: seq<RawEvent>, st: Store, e: RawEvent)
    requires Vocabulary(env) && Inv(env, st) && ValidConditions(env, c) && e in handed
    requires PipelineEnd(c, handed, st) == Finished(0)
    ensures c.ingestion.read(e).Valid?
    ensures Stable(c.ingestion.read(e).o.listing) ==>
      IdentityOf(c.ingestion.read(e).o.listing) in StoreAfter(c, handed, st).records
  {
    var g := c.ingestion;
    var batch := Batch(g, handed);
    var inputs := InputsOf(g, st, batch);
    BatchMembers(env, g, handed);
    NoneRejected(batch, g.read(e));
    InputsAreValid(env, g, st, batch);
    var at := TakenIsObserved(g, st, batch, g.read(e));
    if Stable(g.read(e).o.listing) {
      ObservationIsRecorded(env, st, inputs, at);
    }
  }

  /** The rejections a run reports are the batch's: what did not normalise and what the database refused. */
  lemma {:induction false} ReportedRejections(env: Env, g: Ingestion, st: Store, handed: seq<RawEvent>)
    requires Vocabulary(env) && Inv(env, st) && ValidIngestion(env, g)
    ensures var batch := Batch(g, handed);
      var inputs := InputsOf(g, st, batch);
      && OnlyObservations(inputs)
      && SummaryOf(LandingsOf(env, st, inputs), |inputs|, InvalidCount(batch)).rejected == RejectedCount(batch)
  {
    var batch := Batch(g, handed);
    var inputs := InputsOf(g, st, batch);
    BatchMembers(env, g, handed);
    InputsAreValid(env, g, st, batch);
    RejectedAreRefused(env, st, inputs);
    RejectionsCounted(g, st, batch);
  }

  /** One turn of the worker: its conditions, what it did, what was handed over, and the stores around it. */
  datatype Turn = Turn(c: Conditions, cycle: Cycle, handed: seq<RawEvent>, before: Store, after: Store)

  /** The turn did what its conditions, its listings and the store it found make it do. */
  ghost predicate Fits(t: Turn) {
    && t.c.ingestion.commitEvery >= 1 && HandedOver(t.c, t.handed)
    && t.cycle == CycleOf(t.c, t.handed, t.before)
    && t.after == StoreAfter(t.c, t.handed, t.before)
  }

  /** No scheduled event ended, or else started, before the cutoff. */
  ghost predicate NothingOverdue(st: Store, cutoff: int) {
    forall id :: id in st.events && st.events[id].status == "scheduled" ==>
      cutoff <= if st.events[id].endAt.Some? then st.events[id].endAt.value else st.events[id].startAt
  }

  lemma {:induction false} CycleSweeps(c: Conditions, handed: seq<RawEvent>, st: Store)
    requires c.ingestion.commitEvery >= 1 && PipelineEnd(c, handed, st).Finished? && c.pastCutoff.Some?
    ensures NothingOverdue(StoreAfter(c, handed, st), c.pastCutoff.value)
  {
  }

  class Worker {
    var checkpoint: Option<int>

    constructor ()
      ensures checkpoint == None
    {
      checkpoint := None;
    }

    /** The source's part of a cycle: a crawl, or an error that keeps it out of the acknowledgements. */
    method Fetch(source: TicketmasterSource, c: Conditions) returns (handed: seq<RawEvent>, fetchFailed: bool)
      requires UniqueIds(c.server.corpus)
      modifies source
      ensures fetchFailed == !FetchedWhole(c)
      ensures HandedOver(c, handed)
      ensures !fetchFailed ==> source.lastFetchError == None
      ensures !fetchFailed ==> source.pendingSync == (if c.filtered then None else Some(c.startedAt))
      ensures checkpoint == old(checkpoint)
    {
      if c.createFails {
        return [], true;
      }
      var fetched := source.FetchEvents(c.server, c.size, c.horizonDays, c.now, c.filtered, c.startedAt);
      if fetched.Err? {
        return [], true;
      }
      handed, fetchFailed := fetched.value, source.lastFetchError.Some?;
    }

    /** The pipeline's part: one ingest run over everything handed over. */
    method Ingest(session: Session, ghost env: Env, c: Conditions, handed: seq<RawEvent>) returns (run: PipelineRun)
      requires Vocabulary(env) && ValidConditions(env, c)
      requires Inv(env, session.Contents()) && session.committed == session.Contents()
      modifies session
      ensures run == PipelineEnd(c, handed, old(session.Contents()))
      ensures session.committed == session.Contents()
      ensures session.Contents() == StoreAfter(c.(pastCutoff := None), handed, old(session.Contents()))
    {
      var g := c.ingestion;
      var batch := Batch(g, handed);
      var inputs := InputsOf(g, session.Contents(), batch);
      ReportedRejections(env, g, session.Contents(), handed);
      var summary := session.ProcessRawEvents(g.env, InvalidCount(batch), inputs, g.commitEvery, g.crashAt);
      run := if summary.Some? then Finished(summary.value.rejected) else Failed;
    }

    /**
     One cycle of `run_once` for the Ticketmaster source. The checkpoint moves
     exactly when the cycle advances it; what the cycle does follows from its
     conditions, what was handed over, and the store; and when it advances,
     everything it searched for is on record in the committed store.
     */
    method RunOnce(source: TicketmasterSource, session: Session, ghost env: Env, c: Conditions)
      returns (cycle: Cycle, ghost handed: seq<RawEvent>)
      requires Vocabulary(env) && ValidConditions(env, c)
      requires Inv(env, session.Contents()) && session.committed == session.Contents()
      modifies this, source, session
      ensures Fits(Turn(c, cycle, handed, old(session.Contents()), session.Contents()))
      ensures session.committed == session.Contents()
      ensures checkpoint == if Advances(cycle) then Some(cycle.startedAt) else old(checkpoint)
      ensures Advances(cycle) ==> Persisted(c, session.committed)
      ensures Inv(env, session.committed) && old(session.Contents()).records.Keys <= session.committed.records.Keys
      ensures cycle.pipeline.Finished? && c.pastCutoff.Some? ==> NothingOverdue(session.committed, c.pastCutoff.value)
    {
      var events, fetchFailed := Fetch(source, c);
      handed := events;
      ghost var before := session.Contents();
      var run := Ingest(session, env, c, events);
      cycle := Cycle(c.startedAt, !fetchFailed, c.filtered, run, c.saveFails);
      CycleKeepsRecords(env, c, handed, before);
      if PipelineEnd(c, handed, before).Finished? && c.pastCutoff.Some? {
        CycleSweeps(c, handed, before);
      }
      if Advances(CycleOf(c, handed, before)) {
        AdvanceMeansPersisted(env, c, handed, before);
      }
      if run.Failed? {
        return;
      }
      if run.rejected > 0 {
        fetchFailed := true;
      }
      if !fetchFailed {
        var saved, raised := source.AcknowledgePersisted(checkpoint, c.saveFails);
        checkpoint := saved;
      }
      if c.pastCutoff.Some? {
        session.MarkPastEvents(c.pastCutoff.value);
      }
    }

    /**
     `run_forever`, up to any point: each cycle builds its own source and starts
     from the store the last one left. Whatever an advancing cycle searched for is
     still on record at the end, so the stored timestamp vouches for it.
     */
    method RunCycles(session: Session, ghost env: Env, conditions: seq<Conditions>)
      returns (cycles: seq<Cycle>, ghost turns: seq<Turn>)
      requires Vocabulary(env) && forall i :: 0 <= i < |conditions| ==> ValidConditions(env, conditions[i])
      requires Inv(env, session.Contents()) && session.committed == session.Contents()
      modifies this, session
      ensures |turns| == |conditions| && CyclesOf(cycles, turns)
      ensures History(conditions, turns, old(session.Contents()), session.Contents())
              && session.committed == session.Contents()
      ensures checkpoint == CheckpointAfter(old(checkpoint), cycles)
      ensures AllPersisted(turns, session.committed)
    {
      cycles, turns := [], [];
      for i := 0 to |conditions|
        invariant |turns| == i && CyclesOf(cycles, turns)
        invariant History(conditions, turns, old(session.Contents()), session.Contents())
                  && session.committed == session.Contents()
        invariant Inv(env, session.Contents())
        invariant checkpoint == CheckpointAfter(old(checkpoint), cycles)
        invariant AllPersisted(turns, session.committed)
      {
        var source := new TicketmasterSource();
        ghost var before := session.Contents();
        var cycle, listings := RunOnce(source, session, env, conditions[i]);
        ghost var turn := Turn(conditions[i], cycle, listings, before, session.Contents());
        HistoryGrows(conditions, turns, old(session.Contents()), before, turn);
        AllPersistedLater(turns, turn);
        CyclesGrow(old(checkpoint), cycles, turns, turn);
        cycles, turns := cycles + [cycle], turns + [turn];
      }
    }
  }

  /** Whatever the advancing turns searched for is on record. */
  ghost predicate AllPersisted(turns: seq<Turn>, st: Store) {
    forall i :: 0 <= i < |turns| && Advances(turns[i].cycle) ==> Persisted(turns[i].c, st)
  }

  lemma {:induction false} AllPersistedLater(turns: seq<Turn>, turn: Turn)
    requires AllPersisted(turns, turn.before) && turn.before.records.Keys <= turn.after.records.Keys
    requires Advances(turn.cycle) ==> Persisted(turn.c, turn.after)
    ensures AllPersisted(turns + [turn], turn.after)
  {
    forall i | 0 <= i < |turns| && Advances(turns[i].cycle)
      ensures Persisted(turns[i].c, turn.after)
    {
      PersistedLater(turns[i].c, turn.before, turn.after);
    }
  }

  lemma {:induction false} PersistedLater(c: Conditions, before: Store, after: Store)
    requires Persisted(c, before) && before.records.Keys <= after.records.Keys
    ensures Persisted(c, after)
  {
  }

  /** Turns taken under these conditions one after the other, each from the store the one before it left. */
  ghost predicate History(conditions: seq<Conditions>, turns: seq<Turn>, start: Store, end: Store) {
    && |turns| <= |conditions|
    && (forall i :: 0 <= i < |turns| ==> Fits(turns[i]) && turns[i].c == conditions[i])
    && (forall i :: 1 <= i < |turns| ==> turns[i].before == turns[i - 1].after)
    && (if turns == [] then start == end else turns[0].before == start && turns[|turns| - 1].after == end)
  }

  lemma {:induction false} HistoryGrows(conditions: seq<Conditions>, turns: seq<Turn>, start: Store, end: Store,
                                        turn: Turn)
    requires History(conditions, turns, start, end) && |turns| < |conditions|
    requires Fits(turn) && turn.c == conditions[|turns|] && turn.before == end
    ensures History(conditions, turns + [turn], start, turn.after)
  {
    var more := turns + [turn];
    forall i | 0 <= i < |more|
      ensures Fits(more[i]) && more[i].c == conditions[i]
    {
      assert i < |turns| ==> more[i] == turns[i];
    }
    forall i | 1 <= i < |more|
      ensures more[i].before == more[i - 1].after
    {
      assert more[i - 1] == turns[i - 1];
    }
  }

  predicate CyclesOf(cycles: seq<Cycle>, turns: seq<Turn>) {
    |cycles| == |turns| && forall i :: 0 <= i < |turns| ==> cycles[i] == turns[i].cycle
  }

  /** The checkpoint after a history of cycles, one step at a time as `RunOnce` makes them. */
  function CheckpointAfter(initial: Option<int>, cycles: seq<Cycle>): Option<int> {
    if cycles == [] then initial else
      var last := cycles[|cycles| - 1];
      if Advances(last) then Some(last.startedAt) else CheckpointAfter(initial, cycles[..|cycles| - 1])
  }

  lemma {:induction false} CyclesGrow(initial: Option<int>, cycles: seq<Cycle>, turns: seq<Turn>, turn: Turn)
    requires CyclesOf(cycles, turns)
    ensures CyclesOf(cycles + [turn.cycle], turns + [turn])
    ensures CheckpointAfter(initial, cycles + [turn.cycle]) ==
            if Advances(turn.cycle) then Some(turn.cycle.startedAt) else CheckpointAfter(initial, cycles)
  {
    assert (cycles + [turn.cycle])[..|cycles|] == cycles;
  }

  /** Nothing after cycle `i` advanced the checkpoint. */
  ghost predicate LatestAdvance(cycles: seq<Cycle>, i: nat) {
    i < |cycles| && Advances(cycles[i]) && forall j :: i < j < |cycles| ==> !Advances(cycles[j])
  }

  /** Without an advancing cycle the checkpoint is what it was. */
  lemma {:induction false} NoAdvanceKeeps(initial: Option<int>, cycles: seq<Cycle>)
    requires forall i :: 0 <= i < |cycles| ==> !Advances(cycles[i])
    ensures CheckpointAfter(initial, cycles) == initial
  {
    if cycles != [] {
      var init := cycles[..|cycles| - 1];
      assert forall i :: 0 <= i < |init| ==> init[i] == cycles[i];
      NoAdvanceKeeps(initial, init);
    }
  }

  lemma {:induction false} LatestAdvanceDecides(initial: Option<int>, cycles: seq<Cycle>, i: nat)
    requires LatestAdvance(cycles, i)
    ensures CheckpointAfter(initial, cycles) == Some(cycles[i].startedAt)
    decreases |cycles|
  {
    if i < |cycles| - 1 {
      var init := cycles[..|cycles| - 1];
      assert forall j :: 0 <= j < |init| ==> init[j] == cycles[j];
      LatestAdvanceDecides(initial, init, i);
    }
  }

  lemma {:induction false} SomeAdvanceIsLatest(cycles: seq<Cycle>, i: nat) returns (latest: nat)
    requires i < |cycles| && Advances(cycles[i])
    ensures LatestAdvance(cycles, latest)
    decreases |cycles| - i
  {
    if j :| i < j < |cycles| && Advances(cycles[j]) {
      latest := SomeAdvanceIsLatest(cycles, j);
    } else {
      latest := i;
    }
  }

  /**
   Over any history, the stored timestamp is the fetch start of the latest cycle
   that read everything, committed everything and saved; without such a cycle it
   is what it was.
   */
  lemma {:induction false} CheckpointIsLatestAdvance(initial: Option<int>, cycles: seq<Cycle>)
    ensures if exists i :: 0 <= i < |cycles| && Advances(cycles[i])
            then exists latest: nat ::
                   LatestAdvance(cycles, latest) && CheckpointAfter(initial, cycles) == Some(cycles[latest].startedAt)
            else CheckpointAfter(initial, cycles) == initial
  {
    if i: nat :| i < |cycles| && Advances(cycles[i]) {
      var latest := SomeAdvanceIsLatest(cycles, i);
      LatestAdvanceDecides(initial, cycles, latest);
    } else {
      NoAdvanceKeeps(initial, cycles);
    }
  }

  /**
   The stored timestamp vouches for the store: it is the fetch start of the latest
   cycle that read everything, and whatever that cycle searched for is on record.
   */
  lemma {:induction false} CheckpointVouches(initial: Option<int>, conditions: seq<Conditions>, cycles: seq<Cycle>,
                                             turns: seq<Turn>,
                                             start: Store, end: Store)
    requires History(conditions, turns, start, end) && CyclesOf(cycles, turns) && AllPersisted(turns, end)
    requires CheckpointAfter(initial, cycles) != initial
    ensures exists latest: nat ::
      && LatestAdvance(cycles, latest) && FetchedWhole(conditions[latest])
      && CheckpointAfter(initial, cycles) == Some(conditions[latest].startedAt)
      && Persisted(conditions[latest], end)
      && (KeepsIds(conditions[latest].ingestion.read) ==>
            forall e :: InSearch(conditions[latest], e) && e.id.Some? && e.id.value != "" ==>
              Identity("ticketmaster", e.id.value) in end.records)
  {
    CheckpointIsLatestAdvance(initial, cycles);
    var latest: nat :| LatestAdvance(cycles, latest)
        && CheckpointAfter(initial, cycles) == Some(cycles[latest].startedAt);
    assert Fits(turns[latest]) && turns[latest].c == conditions[latest];
    forall e | KeepsIds(conditions[latest].ingestion.read) && InSearch(conditions[latest], e) && e.id.Some?
      && e.id.value != ""
      ensures Identity("ticketmaster", e.id.value) in end.records
    {
      SearchedIsOnRecord(conditions[latest], end, e);
    }
  }

  /** The mapper files a listing under the provider's name and the provider's id. */
  ghost predicate KeepsIds(read: RawEvent -> Payload) {
    forall e: RawEvent :: e.id.Some? && read(e).Valid? ==>
      read(e).o.listing.sourceName == "ticketmaster" && read(e).o.listing.sourceEventId == e.id
  }

  /**
   Every listing searched for that has an id is stable, so where the search is persisted it
   is on record by that id.
   */
  lemma {:induction false} SearchedIsOnRecord(c: Conditions, st: Store, e: RawEvent)
    requires Persisted(c, st) && KeepsIds(c.ingestion.read)
    requires InSearch(c, e) && e.id.Some? && e.id.value != ""
    ensures Identity("ticketmaster", e.id.value) in st.records
  {
    assert c.ingestion.read(e).Valid?;
    assert Stable(c.ingestion.read(e).o.listing);
  }
}
