/**
 The final ranking: diversity penalties in the recommender and as a lag window
 in SQL, and the pages served from it.
 */
module Ranking {
  import opened Prelude
  import opened Sorting

  /** An event's sort key; its primary category is looked up by id. */
  datatype Row = Row(id: int, start: int, score: real)

  type Categories = int -> Option<string>

  const PENALTY: real := 10.0

  /** `key=lambda s: (-s.total_score, s.event.start_at)` */
  predicate ScoreOrder(a: Row, b: Row) {
    a.score > b.score || (a.score == b.score && a.start <= b.start)
  }

  /** `ORDER BY score DESC, start_at, id` */
  predicate RankOrder(a: Row, b: Row) {
    a.score > b.score || (a.score == b.score && (a.start < b.start || (a.start == b.start && a.id <= b.id)))
  }

  function ByScore(): (leq: (Row, Row) -> bool)
    ensures Preorder(leq)
  {
    (a, b) => ScoreOrder(a, b)
  }

  function ByRank(): (leq: (Row, Row) -> bool)
    ensures TotalOrder(leq) && Preorder(leq) && Refines(leq, ByScore())
  {
    (a, b) => RankOrder(a, b)
  }

  predicate SameCategory(category: Categories, a: Row, b: Row) {
    category(a.id).Some? && category(a.id) == category(b.id)
  }

  /** Row `i` after the pass: it loses the penalty if its predecessor shares its primary category. */
  function PenalizedAt(category: Categories, rows: seq<Row>, i: nat): Row
    requires i < |rows|
  {
    if i > 0 && SameCategory(category, rows[i], rows[i - 1]) then rows[i].(score := rows[i].score - PENALTY)
    else rows[i]
  }

  function Penalized(category: Categories, rows: seq<Row>): (result: seq<Row>)
    ensures |result| == |rows|
    ensures forall i :: 0 <= i < |rows| ==> result[i] == PenalizedAt(category, rows, i)
  {
    seq(|rows|, i requires 0 <= i < |rows| => PenalizedAt(category, rows, i))
  }

  /** `_apply_diversity_penalty`, in place. */
  method ApplyDiversityPenalty(category: Categories, scored: array<Row>)
    modifies scored
    ensures scored[..] == Penalized(category, old(scored[..]))
  {
    ghost var before := scored[..];
    var previous: Option<string> := None;
    for i := 0 to scored.Length
      invariant forall k :: 0 <= k < i ==> scored[k] == PenalizedAt(category, before, k)
      invariant forall k :: i <= k < scored.Length ==> scored[k] == before[k]
      invariant previous == if i == 0 then None else category(before[i - 1].id)
    {
      var primary := category(scored[i].id);
      if primary.Some? && primary == previous {
        scored[i] := scored[i].(score := scored[i].score - PENALTY);
      }
      previous := primary;
    }
  }

  /** `lag(...) OVER (ORDER BY score DESC, start_at, id)`: the row just before `e`. */
  ghost predicate IsLag(rows: set<Row>, p: Row, e: Row) {
    && p in rows && p != e && RankOrder(p, e)
    && forall q :: q in rows && q != e && RankOrder(q, e) ==> RankOrder(q, p)
  }

  /** The SQL `final_score` of one row. */
  ghost function FinalRow(category: Categories, rows: set<Row>, e: Row): Row {
    if exists p :: IsLag(rows, p, e) && SameCategory(category, e, p) then e.(score := e.score - PENALTY) else e
  }

  /** The ranked subquery: every filtered row with its final score. */
  ghost function FinalRows(category: Categories, rows: set<Row>): set<Row> {
    set e | e in rows :: FinalRow(category, rows, e)
  }

  /** Rows tied on score and start stand in id order. */
  predicate TiesInIdOrder(rows: seq<Row>) {
    forall i, j :: 0 <= i < j < |rows| && rows[i].score == rows[j].score && rows[i].start == rows[j].start ==>
      rows[i].id < rows[j].id
  }

  predicate DistinctIds(rows: seq<Row>) {
    forall i, j :: 0 <= i < j < |rows| ==> rows[i].id != rows[j].id
  }

  ghost function Members(rows: seq<Row>): set<Row> {
    set r | r in rows
  }

  /** With ties in id order, the recommender's first sort is the window's order. */
  lemma {:induction false} FirstSortIsWindowOrder(rows: seq<Row>)
    requires TiesInIdOrder(rows)
    ensures Sort(ByScore(), rows) == Sort(ByRank(), rows)
  {
    StableSortRefines(ByScore(), ByRank(), rows);
  }

  /** In a list sorted by rank without repeats, the lag of a row is its predecessor. */
  lemma {:induction false} LagIsPredecessor(sorted: seq<Row>, i: nat, p: Row)
    requires SortedBy(ByRank(), sorted) && DistinctIds(sorted) && i < |sorted|
    ensures IsLag(Members(sorted), p, sorted[i]) <==> i > 0 && p == sorted[i - 1]
  {
    var rows := Members(sorted);
    forall q | q in rows && q != sorted[i] && RankOrder(q, sorted[i])
      ensures i > 0 && RankOrder(q, sorted[i - 1])
    {
      var k :| 0 <= k < |sorted| && sorted[k] == q;
      assert k > i ==> ByRank()(sorted[i], sorted[k]);
      if k < i - 1 {
        assert ByRank()(sorted[k], sorted[i - 1]);
      }
    }
    if i > 0 {
      assert ByRank()(sorted[i - 1], sorted[i]);
      assert sorted[i - 1] in rows;
    }
  }

  /** The in-place pass gives each row the score the SQL lag window gives it. */
  lemma {:induction false} PenaltyIsLag(category: Categories, sorted: seq<Row>, i: nat)
    requires SortedBy(ByRank(), sorted) && DistinctIds(sorted) && i < |sorted|
    ensures PenalizedAt(category, sorted, i) == FinalRow(category, Members(sorted), sorted[i])
  {
    var rows := Members(sorted);
    forall p
      ensures IsLag(rows, p, sorted[i]) <==> i > 0 && p == sorted[i - 1]
    {
      LagIsPredecessor(sorted, i, p);
    }
  }

  lemma {:induction false} PermutationKeepsIds(a: seq<Row>, b: seq<Row>)
    requires DistinctIds(a) && multiset(a) == multiset(b)
    ensures DistinctIds(b) && Members(a) == Members(b) && |a| == |b|
  {
    PermutationMembers(a, b);
    forall i, j | 0 <= i < j < |b| && b[i].id == b[j].id
      ensures false
    {
      assert b[i] in a && b[j] in a;
      var k :| 0 <= k < |a| && a[k] == b[i];
      var l :| 0 <= l < |a| && a[l] == b[j];
      assert k == l;
      RepeatedCounts(b, i, j);
      OnceCounts(a, k);
    }
  }

  lemma {:induction false} RepeatedCounts(s: seq<Row>, i: nat, j: nat)
    requires i < j < |s| && s[i] == s[j]
    ensures multiset(s)[s[i]] >= 2
  {
    assert s == s[..i] + [s[i]] + s[i + 1..j] + [s[j]] + s[j + 1..];
  }

  lemma {:induction false} OnceCounts(s: seq<Row>, k: nat)
    requires DistinctIds(s) && k < |s|
    ensures multiset(s)[s[k]] == 1
  {
    assert s == s[..k] + [s[k]] + s[k + 1..];
    assert s[k] !in s[..k] && s[k] !in s[k + 1..];
  }

  lemma {:induction false} PermutationMembers(a: seq<Row>, b: seq<Row>)
    requires multiset(a) == multiset(b)
    ensures forall x :: x in a <==> x in b
    ensures |a| == |b|
  {
    assert forall x :: x in a <==> x in multiset(a);
    assert forall x :: x in b <==> x in multiset(b);
    assert |multiset(a)| == |a| && |multiset(b)| == |b|;
  }

  /** The recommender's final list over some totals. */
  function PythonRanking(category: Categories, totals: seq<Row>): seq<Row> {
    Sort(ByScore(), Penalized(category, Sort(ByScore(), totals)))
  }

  // ---------- the recommender's list, event by event ----------

  /** `a` comes before `b` in the first sort: by score, then start, then the order the events came in. */
  ghost predicate ComesBefore(totals: seq<Row>, a: Row, b: Row) {
    a != b && ScoreOrder(a, b) && (ScoreOrder(b, a) ==> StandsBefore(totals, a, b))
  }

  /** `p` is the last event to come before `e`. */
  ghost predicate JustBefore(totals: seq<Row>, p: Row, e: Row) {
    && p in totals && ComesBefore(totals, p, e)
    && forall q :: q in totals && ComesBefore(totals, q, e) ==> q == p || ComesBefore(totals, q, p)
  }

  /** The event's final row: its total, less the penalty if the event just before it shares its category. */
  ghost function Rescored(category: Categories, totals: seq<Row>, e: Row): Row {
    if exists p :: JustBefore(totals, p, e) && category(p.id).Some? && category(p.id) == category(e.id)
    then e.(score := e.score - 10.0) else e
  }

  ghost function RescoredAll(category: Categories, totals: seq<Row>): set<Row> {
    set e | e in totals :: Rescored(category, totals, e)
  }

  lemma {:induction false} StandsOneWay(rows: seq<Row>, i: nat, j: nat)
    requires DistinctIds(rows) && i < |rows| && j < |rows|
    ensures StandsBefore(rows, rows[i], rows[j]) <==> i < j
  {
    if StandsBefore(rows, rows[i], rows[j]) {
      var p, q :| 0 <= p < q < |rows| && rows[p] == rows[i] && rows[q] == rows[j];
      assert p == i && q == j;
    }
  }

  lemma {:induction false} SortedStandsAsListed(totals: seq<Row>, a: Row, b: Row)
    requires DistinctIds(totals) && a in totals && b in totals && a != b
    requires ScoreOrder(a, b) && ScoreOrder(b, a)
    ensures StandsBefore(totals, a, b) <==> StandsBefore(Sort(ByScore(), totals), a, b)
  {
    var sorted := Sort(ByScore(), totals);
    SortSpec(ByScore(), totals);
    PermutationKeepsIds(totals, sorted);
    var i :| 0 <= i < |totals| && totals[i] == a;
    var j :| 0 <= j < |totals| && totals[j] == b;
    if i < j {
      SortIsStable(ByScore(), totals, a, b);
    } else {
      SortIsStable(ByScore(), totals, b, a);
      var p, q :| 0 <= p < q < |sorted| && sorted[p] == b && sorted[q] == a;
      StandsOneWay(sorted, q, p);
      StandsOneWay(totals, i, j);
    }
  }

  /** The first sort lists the events as they come. */
  lemma {:induction false} SortedComesBefore(totals: seq<Row>, i: nat, j: nat)
    requires DistinctIds(totals) && i < |totals| && j < |totals|
    ensures var sorted := Sort(ByScore(), totals);
            && |sorted| == |totals| && DistinctIds(sorted) && Members(sorted) == Members(totals)
            && (ComesBefore(totals, sorted[i], sorted[j]) <==> i < j)
  {
    var sorted := Sort(ByScore(), totals);
    SortSpec(ByScore(), totals);
    PermutationKeepsIds(totals, sorted);
    if i != j {
      var a, b := sorted[i], sorted[j];
      assert a in Members(totals) && b in Members(totals);
      assert i < j ==> ByScore()(a, b);
      assert j < i ==> ByScore()(b, a);
      if ScoreOrder(a, b) && ScoreOrder(b, a) {
        SortedStandsAsListed(totals, a, b);
        StandsOneWay(sorted, i, j);
      }
    }
  }

  /** In the sorted list, the event just before another is its predecessor. */
  lemma {:induction false} JustBeforeIsPredecessor(totals: seq<Row>, i: nat, p: Row)
    requires DistinctIds(totals) && i < |totals| == |Sort(ByScore(), totals)|
    ensures var sorted := Sort(ByScore(), totals);
            JustBefore(totals, p, sorted[i]) <==> i > 0 && p == sorted[i - 1]
  {
    var sorted := Sort(ByScore(), totals);
    SortedComesBefore(totals, i, i);
    forall q | q in totals
      ensures q in sorted
    {
      assert q in Members(sorted);
    }
    forall k, l | 0 <= k < |sorted| && 0 <= l < |sorted|
      ensures ComesBefore(totals, sorted[k], sorted[l]) <==> k < l
    {
      SortedComesBefore(totals, k, l);
    }
    if i > 0 { assert sorted[i - 1] in Members(sorted); }
    if JustBefore(totals, p, sorted[i]) {
      var k :| 0 <= k < |sorted| && sorted[k] == p;
      assert i > 0 && sorted[i - 1] in totals;
    }
  }

  lemma {:induction false} PenalizedIsRescored(category: Categories, totals: seq<Row>)
    requires DistinctIds(totals)
    ensures Members(Penalized(category, Sort(ByScore(), totals))) == RescoredAll(category, totals)
  {
    var sorted := Sort(ByScore(), totals);
    var penalized := Penalized(category, sorted);
    SortSpec(ByScore(), totals);
    PermutationKeepsIds(totals, sorted);
    forall i | 0 <= i < |sorted|
      ensures penalized[i] == Rescored(category, totals, sorted[i])
    {
      forall p
        ensures JustBefore(totals, p, sorted[i]) <==> i > 0 && p == sorted[i - 1]
      {
        JustBeforeIsPredecessor(totals, i, p);
      }
    }
    forall r | r in RescoredAll(category, totals)
      ensures r in penalized
    {
      var e :| e in totals && r == Rescored(category, totals, e);
      assert e in Members(sorted);
      var i :| 0 <= i < |sorted| && sorted[i] == e;
      assert penalized[i] == r;
    }
    forall r | r in penalized
      ensures r in RescoredAll(category, totals)
    {
      var i :| 0 <= i < |penalized| && penalized[i] == r;
      assert sorted[i] in Members(totals);
    }
  }

  /**
   The recommender's list holds each event once, best score first, with its total
   less the penalty exactly when the event just before it shares its category.
   */
  lemma {:induction false} PythonRankingSpec(category: Categories, totals: seq<Row>)
    requires DistinctIds(totals)
    ensures DistinctIds(PythonRanking(category, totals)) && SortedBy(ByScore(), PythonRanking(category, totals))
    ensures Members(PythonRanking(category, totals)) == RescoredAll(category, totals)
  {
    var first := Sort(ByScore(), totals);
    SortSpec(ByScore(), totals);
    PermutationKeepsIds(totals, first);
    var penalized := Penalized(category, first);
    SortSpec(ByScore(), penalized);
    PermutationKeepsIds(penalized, Sort(ByScore(), penalized));
    PenalizedIsRescored(category, totals);
  }

  /** `score_events` once the totals are known: sort, penalise in place, sort again. */
  method ScoreEvents(category: Categories, totals: seq<Row>) returns (ranked: seq<Row>)
    ensures ranked == PythonRanking(category, totals)
    ensures DistinctIds(totals) ==>
              && DistinctIds(ranked) && SortedBy(ByScore(), ranked)
              && Members(ranked) == RescoredAll(category, totals)
  {
    var first := Sort(ByScore(), totals);
    var scored := new Row[|first|](i requires 0 <= i < |first| => first[i]);
    assert scored[..] == first;
    ApplyDiversityPenalty(category, scored);
    ranked := Sort(ByScore(), scored[..]);
    if DistinctIds(totals) {
      PythonRankingSpec(category, totals);
    }
  }

  /** The SQL result: the filtered rows, by final score, start and id. */
  ghost function SqlRanking(category: Categories, rows: set<Row>): seq<Row> {
    SortSet(ByRank(), FinalRows(category, rows))
  }

  lemma {:induction false} PenalizedMembers(category: Categories, sorted: seq<Row>)
    requires SortedBy(ByRank(), sorted) && DistinctIds(sorted)
    ensures Members(Penalized(category, sorted)) == FinalRows(category, Members(sorted))
    ensures DistinctIds(Penalized(category, sorted))
  {
    var rows := Members(sorted);
    forall i | 0 <= i < |sorted|
      ensures Penalized(category, sorted)[i] == FinalRow(category, rows, sorted[i])
    {
      PenaltyIsLag(category, sorted, i);
    }
    forall r | r in FinalRows(category, rows)
      ensures r in Penalized(category, sorted)
    {
      var e :| e in rows && r == FinalRow(category, rows, e);
      var i :| 0 <= i < |sorted| && sorted[i] == e;
      assert Penalized(category, sorted)[i] == r;
    }
  }

  /** The recommender and the SQL query give every event the same final score. */
  lemma {:induction false} FinalScoresAgree(category: Categories, totals: seq<Row>)
    requires DistinctIds(totals) && TiesInIdOrder(totals)
    ensures Members(PythonRanking(category, totals)) == FinalRows(category, Members(totals))
    ensures DistinctIds(PythonRanking(category, totals))
    ensures |PythonRanking(category, totals)| == |totals|
  {
    FirstSortIsWindowOrder(totals);
    var sorted := Sort(ByRank(), totals);
    SortSpec(ByRank(), totals);
    PermutationKeepsIds(totals, sorted);
    PenalizedMembers(category, sorted);
    var penalized := Penalized(category, sorted);
    SortSpec(ByScore(), penalized);
    PermutationKeepsIds(penalized, Sort(ByScore(), penalized));
  }

  /** Two neighbours of a list stand against the rank order. */
  ghost predicate OutOfRank(rows: seq<Row>, k: nat) {
    k + 1 < |rows| && !RankOrder(rows[k], rows[k + 1])
  }

  /** If two rows of a list stand against the rank order, some neighbours between them do. */
  lemma {:induction false} NeighboursOutOfRank(rows: seq<Row>, p: nat, q: nat) returns (k: nat)
    requires p < q < |rows| && !RankOrder(rows[p], rows[q])
    ensures OutOfRank(rows, k)
    decreases q - p
  {
    if RankOrder(rows[p], rows[p + 1]) {
      k := NeighboursOutOfRank(rows, p + 1, q);
    } else {
      k := p;
    }
  }

  /** A tie listed out of id order is still out of order after the recommender's first sort. */
  lemma {:induction false} TieStaysOutOfRank(totals: seq<Row>) returns (k: nat)
    requires DistinctIds(totals) && !TiesInIdOrder(totals)
    ensures OutOfRank(Sort(ByScore(), totals), k)
  {
    var i, j :| 0 <= i < j < |totals| && totals[i].score == totals[j].score && totals[i].start == totals[j].start
                && !(totals[i].id < totals[j].id);
    assert StandsBefore(totals, totals[i], totals[j]);
    SortIsStable(ByScore(), totals, totals[i], totals[j]);
    var sorted := Sort(ByScore(), totals);
    var p, q :| 0 <= p < q < |sorted| && sorted[p] == totals[i] && sorted[q] == totals[j];
    k := NeighboursOutOfRank(sorted, p, q);
  }

  /** One shared category for two events, none for the others. */
  function Couple(a: int, b: int): Categories {
    id => if id == a || id == b then Some("Shared") else None
  }

  /** Neighbours out of rank that alone share a category: the second loses points in the list, but not in SQL. */
  lemma {:induction false} CoupleMovesThePenalty(sorted: seq<Row>, k: nat)
    requires DistinctIds(sorted) && OutOfRank(sorted, k)
    ensures var category := Couple(sorted[k].id, sorted[k + 1].id);
      Members(Penalized(category, sorted)) != FinalRows(category, Members(sorted))
  {
    var category, rows := Couple(sorted[k].id, sorted[k + 1].id), Members(sorted);
    var row, penalized := sorted[k + 1], PenalizedAt(Couple(sorted[k].id, sorted[k + 1].id), sorted, k + 1);
    assert penalized == row.(score := row.score - PENALTY);
    assert Penalized(category, sorted)[k + 1] == penalized;
    forall p | IsLag(rows, p, row)
      ensures !SameCategory(category, row, p)
    {
      assert p != sorted[k];
      var i :| 0 <= i < |sorted| && sorted[i] == p;
    }
    assert FinalRow(category, rows, row) == row;
    assert penalized in Members(Penalized(category, sorted));
    forall e | e in rows
      ensures FinalRow(category, rows, e) != penalized
    {
      var i :| 0 <= i < |sorted| && sorted[i] == e;
    }
  }

  /**
   The recommender and the SQL query give every event the same final score,
   whatever its category, exactly when ties on score and start are listed in id order.
   */
  lemma {:induction false} FinalScoresAgreeExactly(totals: seq<Row>)
    requires DistinctIds(totals)
    ensures (forall category: Categories ::
              Members(PythonRanking(category, totals)) == FinalRows(category, Members(totals)))
       <==> TiesInIdOrder(totals)
  {
    if TiesInIdOrder(totals) {
      forall category: Categories
        ensures Members(PythonRanking(category, totals)) == FinalRows(category, Members(totals))
      {
        FinalScoresAgree(category, totals);
      }
    } else {
      var sorted := Sort(ByScore(), totals);
      var k := TieStaysOutOfRank(totals);
      SortSpec(ByScore(), totals);
      PermutationKeepsIds(totals, sorted);
      CoupleMovesThePenalty(sorted, k);
      var category := Couple(sorted[k].id, sorted[k + 1].id);
      var penalized := Penalized(category, sorted);
      SortSpec(ByScore(), penalized);
      PermutationMembers(Sort(ByScore(), penalized), penalized);
      assert Members(PythonRanking(category, totals)) == Members(penalized);
    }
  }

  /** For instance, of two tied events the one with the higher id must not come first. */
  lemma {:induction false} TiedPairOutOfOrder(low: Row, high: Row)
    requires low.id < high.id && low.score == high.score && low.start == high.start
    ensures exists category: Categories ::
      Members(PythonRanking(category, [high, low])) != FinalRows(category, Members([high, low]))
  {
    var totals := [high, low];
    assert totals[0].score == totals[1].score && totals[0].start == totals[1].start && !(totals[0].id < totals[1].id);
    FinalScoresAgreeExactly(totals);
  }

  datatype Key = Key(score: real, start: int)

  function KeyOf(): Row -> Key {
    (row: Row) => Key(row.score, row.start)
  }

  function KeyOrder(): (leq: (Key, Key) -> bool)
    ensures TotalOrder(leq)
  {
    (a: Key, b: Key) => a.score > b.score || (a.score == b.score && a.start <= b.start)
  }

  lemma {:induction false} KeysAreSorted(rows: seq<Row>)
    requires SortedBy(ByScore(), rows)
    ensures SortedBy(KeyOrder(), Mapped(rows, KeyOf()))
  {
    forall i, j | 0 <= i < j < |rows|
      ensures KeyOrder()(Mapped(rows, KeyOf())[i], Mapped(rows, KeyOf())[j])
    {
      assert ByScore()(rows[i], rows[j]);
    }
  }

  lemma {:induction false} DistinctListsOfOneSet(a: seq<Row>, b: seq<Row>)
    requires DistinctIds(a) && DistinctIds(b) && Members(a) == Members(b)
    ensures multiset(a) == multiset(b)
  {
    forall x
      ensures multiset(a)[x] == multiset(b)[x]
    {
      assert x in a <==> x in Members(a);
      assert x in b <==> x in Members(b);
      if x in a {
        var i :| 0 <= i < |a| && a[i] == x;
        var j :| 0 <= j < |b| && b[j] == x;
        OnceCounts(a, i);
        OnceCounts(b, j);
      }
    }
  }

  /** The SQL result lists every filtered row once, by final score, start and id. */
  lemma {:induction false} SqlRankingSpec(category: Categories, rows: set<Row>)
    requires forall a, b :: a in rows && b in rows && a.id == b.id ==> a == b
    ensures DistinctIds(SqlRanking(category, rows))
    ensures SortedBy(ByRank(), SqlRanking(category, rows))
    ensures Members(SqlRanking(category, rows)) == FinalRows(category, rows)
  {
    var finals := FinalRows(category, rows);
    SortSetSpec(ByRank(), finals);
    var ranking := SqlRanking(category, rows);
    SortSetDistinct(ByRank(), finals);
    forall i, j | 0 <= i < j < |ranking|
      ensures ranking[i].id != ranking[j].id
    {
      assert ranking[i] in finals && ranking[j] in finals;
    }
  }

  /** Wherever the final scores are the same, the two orders differ only among rows tied on final score and start. */
  lemma {:induction false} OrdersDifferOnlyOnTies(category: Categories, totals: seq<Row>)
    requires DistinctIds(totals)
    ensures Members(PythonRanking(category, totals)) == FinalRows(category, Members(totals)) ==>
      Mapped(PythonRanking(category, totals), KeyOf()) == Mapped(SqlRanking(category, Members(totals)), KeyOf())
  {
    var python, sql := PythonRanking(category, totals), SqlRanking(category, Members(totals));
    if Members(python) == FinalRows(category, Members(totals)) {
      PythonRankingSpec(category, totals);
      SqlRankingSpec(category, Members(totals));
      DistinctListsOfOneSet(python, sql);
      MappedPermutation(python, sql, KeyOf());
      KeysAreSorted(python);
      RankedIsScored(sql);
      KeysAreSorted(sql);
      SortedIsUnique(KeyOrder(), Mapped(python, KeyOf()), Mapped(sql, KeyOf()));
    }
  }

  lemma {:induction false} RankedIsScored(rows: seq<Row>)
    requires SortedBy(ByRank(), rows)
    ensures SortedBy(ByScore(), rows)
  {
    forall i, j | 0 <= i < j < |rows|
      ensures ByScore()(rows[i], rows[j])
    {
      assert ByRank()(rows[i], rows[j]);
    }
  }

  /** `OFFSET` and `LIMIT`. */
  function Page(ranking: seq<Row>, offset: nat, limit: nat): seq<Row> {
    ranking[Min(offset, |ranking|)..Min(offset + limit, |ranking|)]
  }

  /** Pages requested at successive offsets. */
  function Pages(ranking: seq<Row>, limit: nat, count: nat): seq<Row> {
    if count == 0 then [] else Pages(ranking, limit, count - 1) + Page(ranking, (count - 1) * limit, limit)
  }

  lemma {:induction false} PagesArePrefix(ranking: seq<Row>, limit: nat, count: nat)
    ensures Pages(ranking, limit, count) == ranking[..Min(count * limit, |ranking|)]
  {
    if count > 0 {
      PagesArePrefix(ranking, limit, count - 1);
      assert count * limit == (count - 1) * limit + limit;
    }
  }

  /** Enough pages show every filtered event exactly once, in the one SQL order. */
  lemma {:induction false} PagesListEveryEventOnce(category: Categories, rows: set<Row>, limit: nat, count: nat)
    requires forall a, b :: a in rows && b in rows && a.id == b.id ==> a == b
    requires count * limit >= |SqlRanking(category, rows)|
    ensures var shown := Pages(SqlRanking(category, rows), limit, count);
      DistinctIds(shown) && SortedBy(ByRank(), shown) && Members(shown) == FinalRows(category, rows)
  {
    var ranking := SqlRanking(category, rows);
    PagesArePrefix(ranking, limit, count);
    assert ranking[..|ranking|] == ranking;
    SqlRankingSpec(category, rows);
  }

  function Scores(rows: seq<Row>): map<int, real>
    requires DistinctIds(rows)
  {
    map r | r in rows :: r.id := r.score
  }

  function Rescore(totals: int -> real): Row -> Row {
    (r: Row) => r.(score := totals(r.id))
  }

  function Restore(scores: map<int, real>): Row -> Row {
    (r: Row) => if r.id in scores then r.(score := scores[r.id]) else r
  }

  lemma {:induction false} RestoreUndoesRescore(rows: seq<Row>, totals: int -> real)
    requires DistinctIds(rows)
    ensures Mapped(Mapped(rows, Rescore(totals)), Restore(Scores(rows))) == rows
  {
    forall i | 0 <= i < |rows|
      ensures Restore(Scores(rows))(Rescore(totals)(rows[i])) == rows[i]
    {
      assert rows[i].id in Scores(rows);
    }
  }

  lemma {:induction false} PageKeepsOrder(ranking: seq<Row>, offset: nat, limit: nat)
    requires DistinctIds(ranking) && SortedBy(ByRank(), ranking)
    ensures DistinctIds(Page(ranking, offset, limit)) && SortedBy(ByRank(), Page(ranking, offset, limit))
  {
    var page, first := Page(ranking, offset, limit), Min(offset, |ranking|);
    assert forall i :: 0 <= i < |page| ==> page[i] == ranking[first + i];
  }

  /**
   One response: the page's events are rescored and reordered in memory, get
   their SQL scores back, and are sorted again. The page comes out as it went in.
   */
  method ServePage(ranking: seq<Row>, totals: int -> real, offset: nat, limit: nat) returns (paged: seq<Row>)
    requires DistinctIds(ranking) && SortedBy(ByRank(), ranking)
    ensures paged == Page(ranking, offset, limit)
  {
    var page := Page(ranking, offset, limit);
    PageKeepsOrder(ranking, offset, limit);
    var hydrated := Mapped(page, Rescore(totals));
    var scored := Sort(ByScore(), hydrated);
    var restored := Mapped(scored, Restore(Scores(page)));
    paged := Sort(ByRank(), restored);
    SortSpec(ByScore(), hydrated);
    MappedPermutation(scored, hydrated, Restore(Scores(page)));
    RestoreUndoesRescore(page, totals);
    ResortIsIdentity(ByRank(), page, restored);
  }
}
