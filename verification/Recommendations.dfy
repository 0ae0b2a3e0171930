/**
 Recommendations end to end: from a user's signals and preferences to the final
 scores, once in memory and once in SQL.
 */
module Recommendations {
  import opened Prelude
  import opened Sorting
  import opened Tags
  import opened Scoring
  import opened UserProfile
  import opened Ranking

  /** What scoring needs to know of one event of the filtered set. */
  datatype Candidate = Candidate(id: int, start: int, created: int, tags: seq<string>, interactions: nat)

  /** Who asks, and when. */
  datatype Reader = Reader(synonyms: map<string, string>, vibes: set<string>, profile: seq<Weight>, now: int)

  /** The recommender's total of one event, before diversity. */
  function PythonRow(reader: Reader): Candidate -> Row {
    (c: Candidate) =>
      var m := MatchOf(reader.synonyms, c.tags, reader.vibes, reader.profile);
      Row(c.id, c.start, PythonTotal(m, c.interactions, c.created, reader.now).GetOr(0.0))
  }

  /** The query's total of one event: one term per weighted concept. */
  function SqlRow(reader: Reader, terms: seq<string>, weights: map<string, real>): Candidate -> Row {
    (c: Candidate) =>
      var raw := Sum(terms, TermOf(reader.synonyms, c.tags, AtOf(weights)));
      Row(c.id, c.start, SqlTotal(raw, c.interactions, c.created, reader.now).GetOr(0.0))
  }

  ghost predicate WeightsOf(reader: Reader, terms: seq<string>, weights: map<string, real>) {
    && Terms(reader.synonyms, terms, weights)
    && forall k :: At(weights, k) == WeightOf(reader.synonyms, reader.vibes, reader.profile)(k)
  }

  /** For a stored profile both sides give an event the same total, and it is defined. */
  lemma {:induction false} RowsAgree(reader: Reader, signals: seq<Signal>, terms: seq<string>,
                                     weights: map<string, real>, c: Candidate)
    requires Synonyms(reader.synonyms) && ProfileOf(signals, reader.profile) && WeightsOf(reader, terms, weights)
    ensures SqlRow(reader, terms, weights)(c) == PythonRow(reader)(c)
    ensures PythonTotal(MatchOf(reader.synonyms, c.tags, reader.vibes, reader.profile), c.interactions, c.created,
                        reader.now) != None
  {
    RawScoresAgree(reader.synonyms, c.tags, reader.vibes, reader.profile, terms, weights);
    TotalsAgreeForStoredProfiles(reader.synonyms, c.tags, reader.vibes, reader.profile, c.interactions, c.created,
                                 reader.now);
  }

  /** The rows the query ranks, for a user with these signals and preferences. */
  method SqlRows(synonyms: map<string, string>, vibes: set<string>, signals: seq<Signal>, now: int,
                 candidates: seq<Candidate>)
    returns (rows: seq<Row>, reader: Reader)
    requires Synonyms(synonyms)
    ensures reader == Reader(synonyms, vibes, reader.profile, now) && ProfileOf(signals, reader.profile)
    ensures rows == Mapped(candidates, PythonRow(reader))
  {
    var profile := ComputeVibeScores(signals);
    reader := Reader(synonyms, vibes, profile, now);
    var terms, weights := RawWeights(synonyms, vibes, profile);
    rows := Mapped(candidates, SqlRow(reader, terms, weights));
    forall i | 0 <= i < |candidates|
      ensures SqlRow(reader, terms, weights)(candidates[i]) == PythonRow(reader)(candidates[i])
    {
      RowsAgree(reader, signals, terms, weights, candidates[i]);
    }
  }

  /**
   For one filtered set of events and one user, the query and `score_events` give
   every event the same final score, whatever the categories, exactly when events
   tied on total and start are listed in id order.
   */
  lemma {:induction false} SameFinalScores(reader: Reader, signals: seq<Signal>, terms: seq<string>,
                                           weights: map<string, real>,
                                           candidates: seq<Candidate>)
    requires Synonyms(reader.synonyms) && ProfileOf(signals, reader.profile) && WeightsOf(reader, terms, weights)
    requires forall i, j :: 0 <= i < j < |candidates| ==> candidates[i].id != candidates[j].id
    ensures var python, sql := Mapped(candidates, PythonRow(reader)),
            Mapped(candidates, SqlRow(reader, terms, weights));
      (forall category: Categories :: Members(PythonRanking(category, python)) == FinalRows(category, Members(sql)))
      <==> TiesInIdOrder(python)
  {
    var python, sql := Mapped(candidates, PythonRow(reader)), Mapped(candidates, SqlRow(reader, terms, weights));
    forall i | 0 <= i < |candidates|
      ensures python[i] == sql[i] && python[i].id == candidates[i].id
    {
      RowsAgree(reader, signals, terms, weights, candidates[i]);
    }
    assert python == sql;
    FinalScoresAgreeExactly(python);
  }
}
