/**
 Component scores of a recommendation, once as the in-memory recommender
 computes them and once as the SQL query does.
 */
module Scoring {
  import opened Prelude
  import opened Lists
  import opened Sorting
  import opened Tags

  /** One learned weight of the user's profile. */
  datatype Weight = Weight(tag: string, score: real)

  const HOUR_SECONDS: int := 3600

  function ResolveOf(synonyms: map<string, string>): string -> Option<string> {
    tag => Resolve(synonyms, tag)
  }

  /** The distinct concepts an event is tagged with, in order of first mention. */
  function Concepts(synonyms: map<string, string>, tags: seq<string>): seq<string> {
    Dedupe(FilterMap(tags, ResolveOf(synonyms)))
  }

  /** The concepts the user prefers. */
  function Preferred(synonyms: map<string, string>, vibes: set<string>): set<string> {
    set v | v in vibes && Resolve(synonyms, v).Some? :: Resolve(synonyms, v).value
  }

  /** What the profile has learned about a concept, over all its spellings. */
  function Learned(synonyms: map<string, string>, profile: seq<Weight>, key: string): real {
    if profile == [] then 0.0 else
      var last := profile[|profile| - 1];
      Learned(synonyms, profile[..|profile| - 1], key)
      + (if Resolve(synonyms, last.tag) == Some(key) then last.score else 0.0)
  }

  function LearnedOf(synonyms: map<string, string>, profile: seq<Weight>): string -> real {
    key => Learned(synonyms, profile, key)
  }

  function At(m: map<string, real>, key: string): real {
    if key in m then m[key] else 0.0
  }

  function AtOf(m: map<string, real>): string -> real {
    key => At(m, key)
  }

  function Sum(keys: seq<string>, f: string -> real): real {
    if keys == [] then 0.0 else Sum(keys[..|keys| - 1], f) + f(keys[|keys| - 1])
  }

  function CountIn(keys: seq<string>, wanted: set<string>): nat {
    if keys == [] then 0 else CountIn(keys[..|keys| - 1], wanted) + (if keys[|keys| - 1] in wanted then 1 else 0)
  }

  /** Keeps headroom below 100; undefined where the denominator vanishes. */
  function Saturate(raw: real): Option<real> {
    if raw + 100.0 == 0.0 then None else Some(100.0 * raw / (raw + 100.0))
  }

  /** How many of the event's concepts are preferred, and their learned weight. */
  datatype Match = Match(preferred: nat, weighted: real)

  function MatchOf(synonyms: map<string, string>, tags: seq<string>, vibes: set<string>, profile: seq<Weight>): Match {
    var concepts := Concepts(synonyms, tags);
    Match(CountIn(concepts, Preferred(synonyms, vibes)), Sum(concepts, LearnedOf(synonyms, profile)))
  }

  predicate Unmatched(m: Match) {
    m.preferred == 0 && m.weighted <= 0.0
  }

  function PythonVibe(m: Match): Option<real> {
    if Unmatched(m) then Some(0.0)
    else Saturate(m.preferred as real * 100.0 + m.weighted * 10.0)
  }

  /** The first of the tags that stands for a concept: its entry in `tag_map`. */
  function Spelling(synonyms: map<string, string>, tags: seq<string>, key: string): string {
    if tags == [] then ""
    else if Resolve(synonyms, tags[0]) == Some(key) then tags[0]
    else Spelling(synonyms, tags[1..], key)
  }

  function SpellingOf(synonyms: map<string, string>, tags: seq<string>): string -> string {
    key => Spelling(synonyms, tags, key)
  }

  /** A concept that counts although it is not preferred, in the event's spelling. */
  function Extra(preferred: set<string>, spell: string -> string, gain: string -> real): string -> Option<string> {
    key => if gain(key) > 0.0 && key !in preferred then Some(spell(key)) else None
  }

  function Common(keys: seq<string>, preferred: set<string>): set<string> {
    set k | k in keys && k in preferred
  }

  /** `sorted(matched_keys)` */
  ghost function SortedCommon(keys: seq<string>, preferred: set<string>): (common: seq<string>)
    ensures forall k :: k in common <==> k in keys && k in preferred
  {
    LexOrderTotal();
    SortSetSpec(LexOrder(), Common(keys, preferred));
    SortSet(LexOrder(), Common(keys, preferred))
  }

  /**
   What is shown as matched: preferred concepts in order, then learned ones in the event's
   order, each as the event spells it.
   */
  ghost function Matched(keys: seq<string>, preferred: set<string>, spell: string -> string,
                         gain: string -> real): seq<string> {
    Mapped(SortedCommon(keys, preferred), spell) + FilterMap(keys, Extra(preferred, spell, gain))
  }

  ghost function MatchedTags(synonyms: map<string, string>, tags: seq<string>, vibes: set<string>,
                             profile: seq<Weight>): seq<string> {
    Matched(Concepts(synonyms, tags), Preferred(synonyms, vibes), SpellingOf(synonyms, tags),
            LearnedOf(synonyms, profile))
  }

  lemma {:induction false} MappedHas<T, U>(s: seq<T>, f: T -> U, y: U)
    ensures y in Mapped(s, f) <==> exists x :: x in s && f(x) == y
  {
    if y in Mapped(s, f) {
      var i :| 0 <= i < |s| && Mapped(s, f)[i] == y;
      assert s[i] in s;
    }
    if x :| x in s && f(x) == y {
      var i :| 0 <= i < |s| && s[i] == x;
      assert Mapped(s, f)[i] == y;
    }
  }

  /** A tag is shown as matched exactly when it is how the event spells a preferred or a learned concept. */
  lemma {:induction false} MatchedExactly(keys: seq<string>, preferred: set<string>, spell: string -> string,
                                          gain: string -> real, t: string)
    ensures t in Matched(keys, preferred, spell, gain) <==>
      exists k :: k in keys && (k in preferred || gain(k) > 0.0) && t == spell(k)
  {
    var first, extra := SortedCommon(keys, preferred), Extra(preferred, spell, gain);
    MappedHas(first, spell, t);
    FilterMapMembers(keys, extra);
    assert t in Matched(keys, preferred, spell, gain) <==> t in Mapped(first, spell) || t in FilterMap(keys, extra);
    if k :| k in keys && (k in preferred || gain(k) > 0.0) && t == spell(k) {
      assert k !in preferred ==> extra(k) == Some(t);
      assert k in preferred ==> k in first;
    }
  }

  ghost predicate DistinctlySpelled(keys: seq<string>, spell: string -> string) {
    NoDuplicates(keys) && forall a, b :: a in keys && b in keys && spell(a) == spell(b) ==> a == b
  }

  /** Where no two concepts share a spelling, one is listed already exactly when it is preferred. */
  lemma {:induction false} ListedAlready(keys: seq<string>, preferred: set<string>, spell: string -> string,
                                         gain: string -> real, i: nat)
    requires DistinctlySpelled(keys, spell) && i < |keys|
    ensures spell(keys[i]) in Mapped(SortedCommon(keys, preferred), spell)
            + FilterMap(keys[..i], Extra(preferred, spell, gain))
       <==> keys[i] in preferred
  {
    var first, extra := SortedCommon(keys, preferred), Extra(preferred, spell, gain);
    MappedHas(first, spell, spell(keys[i]));
    FilterMapMembers(keys[..i], extra);
    forall k | k in keys[..i]
      ensures extra(k) != Some(spell(keys[i]))
    {
      var q :| 0 <= q < i && keys[q] == k;
      assert k != keys[i];
    }
  }

  /** `_vibe_score`: the score and the matched tags. */
  method VibeScore(synonyms: map<string, string>, tags: seq<string>, vibes: set<string>, profile: seq<Weight>)
    returns (score: Option<real>, matched: seq<string>)
    ensures score == PythonVibe(MatchOf(synonyms, tags, vibes, profile))
    ensures var m := MatchOf(synonyms, tags, vibes, profile);
            matched == if m.preferred == 0 && m.weighted <= 0.0 then [] else MatchedTags(synonyms, tags, vibes, profile)
  {
    var m, shown := Weigh(synonyms, tags, vibes, profile);
    score := ScoreMatch(m);
    matched := if m.preferred == 0 && m.weighted <= 0.0 then [] else shown;
  }

  method ScoreMatch(m: Match) returns (score: Option<real>)
    ensures score == PythonVibe(m)
  {
    if m.preferred == 0 && m.weighted <= 0.0 {
      return Some(0.0);
    }
    score := Saturate(m.preferred as real * 100.0 + m.weighted * 10.0);
  }

  /** The dictionaries of an event and a user, and what they have in common. */
  method Weigh(synonyms: map<string, string>, tags: seq<string>, vibes: set<string>, profile: seq<Weight>)
    returns (m: Match, shown: seq<string>)
    ensures m == MatchOf(synonyms, tags, vibes, profile)
    ensures shown == MatchedTags(synonyms, tags, vibes, profile)
  {
    var keys := TagKeys(synonyms, tags);
    var learned := LearnedScores(synonyms, profile);
    m := MatchWeights(synonyms, tags, keys, vibes, profile, learned);
    shown := TagsShown(synonyms, tags, keys, vibes, profile, learned);
  }

  method TagsShown(synonyms: map<string, string>, tags: seq<string>, keys: seq<string>, vibes: set<string>,
                   profile: seq<Weight>,
                   learned: map<string, real>)
    returns (matched: seq<string>)
    requires keys == Concepts(synonyms, tags) && forall k :: At(learned, k) == Learned(synonyms, profile, k)
    ensures matched == MatchedTags(synonyms, tags, vibes, profile)
  {
    SpellingsDiffer(synonyms, tags);
    matched := ListMatched(keys, Preferred(synonyms, vibes), SpellingOf(synonyms, tags), learned,
                           LearnedOf(synonyms, profile));
  }

  method MatchWeights(synonyms: map<string, string>, tags: seq<string>, keys: seq<string>, vibes: set<string>,
                      profile: seq<Weight>,
                      learned: map<string, real>)
    returns (m: Match)
    requires keys == Concepts(synonyms, tags) && forall k :: At(learned, k) == Learned(synonyms, profile, k)
    ensures m == MatchOf(synonyms, tags, vibes, profile)
  {
    var preferredKeys := Preferred(synonyms, vibes);
    var preferred, weighted := 0, 0.0;
    for i := 0 to |keys|
      invariant preferred == CountIn(keys[..i], preferredKeys)
      invariant weighted == Sum(keys[..i], LearnedOf(synonyms, profile))
    {
      assert keys[..i + 1][..i] == keys[..i];
      if keys[i] in preferredKeys { preferred := preferred + 1; }
      weighted := weighted + At(learned, keys[i]);
    }
    assert keys[..|keys|] == keys;
    m := Match(preferred, weighted);
  }

  /** No two concepts share a spelling, since a spelling stands for one concept only. */
  lemma {:induction false} SpellingsDiffer(synonyms: map<string, string>, tags: seq<string>)
    ensures DistinctlySpelled(Concepts(synonyms, tags), SpellingOf(synonyms, tags))
  {
    ConceptsSpec(synonyms, tags);
    forall key | key in Concepts(synonyms, tags)
      ensures Resolve(synonyms, Spelling(synonyms, tags, key)) == Some(key)
    {
      SpellingFound(synonyms, tags, key);
    }
  }

  lemma {:induction false} SpellingFound(synonyms: map<string, string>, tags: seq<string>, key: string)
    requires exists t :: t in tags && Resolve(synonyms, t) == Some(key)
    ensures Spelling(synonyms, tags, key) in tags && Resolve(synonyms, Spelling(synonyms, tags, key)) == Some(key)
  {
    if Resolve(synonyms, tags[0]) != Some(key) {
      assert tags == [tags[0]] + tags[1..];
      SpellingFound(synonyms, tags[1..], key);
    }
  }

  /** The list of matched tags: sorted preferences first, then learned concepts whose spelling is not listed yet. */
  method ListMatched(keys: seq<string>, preferred: set<string>, spell: string -> string, learned: map<string, real>,
                     ghost gain: string -> real)
    returns (matched: seq<string>)
    requires DistinctlySpelled(keys, spell) && forall k :: At(learned, k) == gain(k)
    ensures matched == Matched(keys, preferred, spell, gain)
  {
    LexOrderTotal();
    ghost var extra := Extra(preferred, spell, gain);
    var first := SortSet(LexOrder(), Common(keys, preferred));
    matched := Mapped(first, spell);
    for i := 0 to |keys|
      invariant matched == Mapped(first, spell) + FilterMap(keys[..i], extra)
    {
      assert keys[..i + 1] == keys[..i] + [keys[i]];
      FilterMapAppend(keys[..i], keys[i], extra);
      ListedAlready(keys, preferred, spell, gain, i);
      if At(learned, keys[i]) > 0.0 {
        var original := spell(keys[i]);
        if original !in matched {
          matched := matched + [original];
        }
      }
    }
    assert keys[..|keys|] == keys;
  }

  /** The keys of `tag_map`, in insertion order. */
  method TagKeys(synonyms: map<string, string>, tags: seq<string>) returns (keys: seq<string>)
    ensures keys == Concepts(synonyms, tags)
  {
    keys := [];
    for i := 0 to |tags|
      invariant keys == Concepts(synonyms, tags[..i])
    {
      assert tags[..i + 1] == tags[..i] + [tags[i]];
      FilterMapAppend(tags[..i], tags[i], ResolveOf(synonyms));
      var key := Resolve(synonyms, tags[i]);
      if key.Some? {
        DedupeAppend(FilterMap(tags[..i], ResolveOf(synonyms)), key.value);
        DedupeSpec(FilterMap(tags[..i], ResolveOf(synonyms)));
        if key.value !in keys { keys := keys + [key.value]; }
      }
    }
    assert tags[..|tags|] == tags;
  }

  /** `normalized_profile_scores` */
  method LearnedScores(synonyms: map<string, string>, profile: seq<Weight>) returns (scores: map<string, real>)
    ensures forall k :: At(scores, k) == Learned(synonyms, profile, k)
  {
    scores := map[];
    for i := 0 to |profile|
      invariant forall k :: At(scores, k) == Learned(synonyms, profile[..i], k)
    {
      assert profile[..i + 1][..i] == profile[..i];
      var key := Resolve(synonyms, profile[i].tag);
      if key.None? { continue; }
      scores := Raise(scores, key.value, profile[i].score);
    }
    assert profile[..|profile|] == profile;
  }

  method Raise(scores: map<string, real>, key: string, amount: real) returns (raised: map<string, real>)
    ensures forall k :: At(raised, k) == At(scores, k) + (if k == key then amount else 0.0)
    ensures raised.Keys == scores.Keys + {key}
  {
    raised := scores[key := At(scores, key) + amount];
  }

  /** The weight one concept contributes when an event carries it. */
  function WeightOf(synonyms: map<string, string>, vibes: set<string>, profile: seq<Weight>): string -> real {
    key => (if key in Preferred(synonyms, vibes) then 100.0 else 0.0) + 10.0 * Learned(synonyms, profile, key)
  }

  /** The SQL terms: each weighted concept once, in its resolved spelling. */
  ghost predicate Terms(synonyms: map<string, string>, terms: seq<string>, weights: map<string, real>) {
    && NoDuplicates(terms)
    && (forall k :: k in terms <==> k in weights)
    && (forall k :: k in terms ==> Resolve(synonyms, k) == Some(k))
  }

  /** `raw_weights`: one SQL term per concept, whatever order the sets were listed in. */
  method RawWeights(synonyms: map<string, string>, vibes: set<string>, profile: seq<Weight>)
    returns (terms: seq<string>, weights: map<string, real>)
    requires Synonyms(synonyms)
    ensures Terms(synonyms, terms, weights)
    ensures forall k :: At(weights, k) == WeightOf(synonyms, vibes, profile)(k)
  {
    terms, weights := PreferenceWeights(synonyms, vibes);
    ghost var base := weights;
    for i := 0 to |profile|
      invariant Terms(synonyms, terms, weights)
      invariant forall k :: At(weights, k) == At(base, k) + 10.0 * Learned(synonyms, profile[..i], k)
    {
      assert profile[..i + 1][..i] == profile[..i];
      var key := Resolve(synonyms, profile[i].tag);
      if key.Some? {
        ResolvedIsCanonical(synonyms, profile[i].tag);
        terms, weights := AddTerm(synonyms, terms, weights, key.value, profile[i].score * 10.0);
      }
    }
    assert profile[..|profile|] == profile;
  }

  method AddTerm(synonyms: map<string, string>, terms: seq<string>, weights: map<string, real>, key: string,
                 value: real)
    returns (terms': seq<string>, weights': map<string, real>)
    requires Terms(synonyms, terms, weights) && Resolve(synonyms, key) == Some(key)
    ensures Terms(synonyms, terms', weights')
    ensures forall k :: At(weights', k) == At(weights, k) + (if k == key then value else 0.0)
  {
    weights' := Raise(weights, key, value);
    terms' := if key in terms then terms else terms + [key];
  }

  method PreferenceWeights(synonyms: map<string, string>, vibes: set<string>)
    returns (terms: seq<string>, weights: map<string, real>)
    requires Synonyms(synonyms)
    ensures Terms(synonyms, terms, weights)
    ensures forall k :: At(weights, k) == if k in Preferred(synonyms, vibes) then 100.0 else 0.0
  {
    terms, weights := [], map[];
    var preferredKeys := Preferred(synonyms, vibes);
    PreferredAreFixed(synonyms, vibes);
    var pending := preferredKeys;
    while pending != {}
      invariant pending <= preferredKeys
      invariant Terms(synonyms, terms, weights)
      invariant forall k :: At(weights, k) == if k in preferredKeys - pending then 100.0 else 0.0
      decreases |pending|
    {
      var tag :| tag in pending;
      pending := pending - {tag};
      terms, weights := AddTerm(synonyms, terms, weights, tag, 100.0);
    }
  }

  lemma {:induction false} PreferredAreFixed(synonyms: map<string, string>, vibes: set<string>)
    requires Synonyms(synonyms)
    ensures forall k :: k in Preferred(synonyms, vibes) ==> Resolve(synonyms, k) == Some(k)
  {
    forall v | v in vibes && Resolve(synonyms, v).Some?
      ensures Resolve(synonyms, Resolve(synonyms, v).value) == Some(Resolve(synonyms, v).value)
    {
      ResolvedIsCanonical(synonyms, v);
    }
  }

  /** One SQL term: the weight if the tag filter accepts the event. */
  function TermOf(synonyms: map<string, string>, tags: seq<string>, weight: string -> real): string -> real {
    key => if TagFilter(synonyms, key, tags) then weight(key) else 0.0
  }

  /** `f` inside `keys`, zero outside. */
  function Inside(keys: seq<string>, f: string -> real): string -> real {
    k => if k in keys then f(k) else 0.0
  }

  lemma {:induction false} SumSame(keys: seq<string>, f: string -> real, g: string -> real)
    requires forall k :: k in keys ==> f(k) == g(k)
    ensures Sum(keys, f) == Sum(keys, g)
  {
    if keys != [] {
      assert keys == keys[..|keys| - 1] + [keys[|keys| - 1]];
      SumSame(keys[..|keys| - 1], f, g);
    }
  }

  /** Widening the guard by one new key adds that key's value once. */
  lemma {:induction false} SumGrows(keys: seq<string>, inner: seq<string>, extra: string, f: string -> real)
    requires NoDuplicates(keys) && extra !in inner
    ensures Sum(keys, Inside(inner + [extra], f)) == Sum(keys, Inside(inner, f))
            + (if extra in keys then f(extra) else 0.0)
  {
    if keys != [] {
      var init, last := keys[..|keys| - 1], keys[|keys| - 1];
      assert keys == init + [last];
      assert forall i :: 0 <= i < |init| ==> init[i] == keys[i];
      SumGrows(init, inner, extra, f);
    }
  }

  lemma {:induction false} SumOfNothing(keys: seq<string>, f: string -> real)
    ensures Sum(keys, Inside([], f)) == 0.0
  {
    if keys != [] {
      SumOfNothing(keys[..|keys| - 1], f);
    }
  }

  /** Counting common keys from either list gives the same total. */
  lemma {:induction false} SumExchange(a: seq<string>, b: seq<string>, f: string -> real)
    requires NoDuplicates(a) && NoDuplicates(b)
    ensures Sum(a, Inside(b, f)) == Sum(b, Inside(a, f))
  {
    if a == [] {
      SumOfNothing(b, f);
    } else {
      var init, last := a[..|a| - 1], a[|a| - 1];
      assert a == init + [last];
      assert forall i :: 0 <= i < |init| ==> init[i] == a[i];
      SumExchange(init, b, f);
      SumGrows(b, init, last, f);
    }
  }

  lemma {:induction false} SumOfWeights(synonyms: map<string, string>, keys: seq<string>, vibes: set<string>,
                                        profile: seq<Weight>)
    ensures Sum(keys, WeightOf(synonyms, vibes, profile))
         == CountIn(keys, Preferred(synonyms, vibes)) as real * 100.0 + Sum(keys, LearnedOf(synonyms, profile)) * 10.0
  {
    if keys != [] {
      SumOfWeights(synonyms, keys[..|keys| - 1], vibes, profile);
    }
  }

  /** The SQL sum over weighted concepts is the recommender's raw score, for every event, user and profile. */
  lemma {:induction false} RawScoresAgree(synonyms: map<string, string>, tags: seq<string>, vibes: set<string>,
                                          profile: seq<Weight>,
                                          terms: seq<string>, weights: map<string, real>)
    requires Synonyms(synonyms) && Terms(synonyms, terms, weights)
    requires forall k :: At(weights, k) == WeightOf(synonyms, vibes, profile)(k)
    ensures var m := MatchOf(synonyms, tags, vibes, profile);
      Sum(terms, TermOf(synonyms, tags, AtOf(weights))) == m.preferred as real * 100.0 + m.weighted * 10.0
  {
    var concepts := Concepts(synonyms, tags);
    var weight := WeightOf(synonyms, vibes, profile);
    var term := TermOf(synonyms, tags, AtOf(weights));
    ConceptsSpec(synonyms, tags);
    forall k | k in terms
      ensures term(k) == Inside(concepts, weight)(k)
    {
      FilterIsResolution(synonyms, k, tags);
    }
    SumSame(terms, term, Inside(concepts, weight));
    SumExchange(terms, concepts, weight);
    SumSame(concepts, Inside(terms, weight), weight);
    SumOfWeights(synonyms, concepts, vibes, profile);
  }

  lemma {:induction false} ConceptsSpec(synonyms: map<string, string>, tags: seq<string>)
    ensures NoDuplicates(Concepts(synonyms, tags))
    ensures forall k :: k in Concepts(synonyms, tags) <==> exists t :: t in tags && Resolve(synonyms, t) == Some(k)
  {
    DedupeSpec(FilterMap(tags, ResolveOf(synonyms)));
    FilterMapMembers(tags, ResolveOf(synonyms));
    assert forall t :: ResolveOf(synonyms)(t) == Resolve(synonyms, t);
  }

  /**
   The SQL vibe score is the recommender's exactly when a preference matched or
   the learned weight is not negative; otherwise only Python clamps to zero.
   */
  lemma {:induction false} VibesAgreeExactly(m: Match)
    ensures Saturate(m.preferred as real * 100.0 + m.weighted * 10.0) == PythonVibe(m) <==>
            m.preferred > 0 || m.weighted >= 0.0
  {
    var raw := m.preferred as real * 100.0 + m.weighted * 10.0;
    if m.preferred == 0 && m.weighted < 0.0 && raw != -100.0 {
      var q := 100.0 * raw / (raw + 100.0);
      assert q * (raw + 100.0) == 100.0 * raw;
      assert q != 0.0;
    }
  }

  function Popularity(interactions: nat): real {
    if interactions as real * 10.0 <= 100.0 then interactions as real * 10.0 else 100.0
  }

  /** `_freshness_score`: by age. */
  function FreshnessByAge(age: int): real {
    if age <= 24 * HOUR_SECONDS then 100.0
    else if age <= 48 * HOUR_SECONDS then 75.0
    else if age <= 7 * 24 * HOUR_SECONDS then 50.0
    else 25.0
  }

  /** The SQL `CASE`: by creation time. */
  function FreshnessByDate(created: int, now: int): real {
    if created >= now - 24 * HOUR_SECONDS then 100.0
    else if created >= now - 48 * HOUR_SECONDS then 75.0
    else if created >= now - 7 * 24 * HOUR_SECONDS then 50.0
    else 25.0
  }

  function Total(vibe: real, popularity: real, freshness: real): real {
    vibe * 0.50 + popularity * 0.25 + freshness * 0.15 + 100.0 * 0.10
  }

  function PythonTotal(m: Match, interactions: nat, created: int, now: int): Option<real> {
    var vibe := PythonVibe(m);
    if vibe.None? then None else Some(Total(vibe.value, Popularity(interactions), FreshnessByAge(now - created)))
  }

  function SqlTotal(raw: real, interactions: nat, created: int, now: int): Option<real> {
    var vibe := Saturate(raw);
    if vibe.None? then None else Some(Total(vibe.value, Popularity(interactions), FreshnessByDate(created, now)))
  }

  /** Before diversity, both rankings give an event the same total under the same exact condition. */
  lemma {:induction false} TotalsAgreeExactly(m: Match, interactions: nat, created: int, now: int)
    ensures SqlTotal(m.preferred as real * 100.0 + m.weighted * 10.0, interactions, created, now)
         == PythonTotal(m, interactions, created, now)
       <==> m.preferred > 0 || m.weighted >= 0.0
  {
    VibesAgreeExactly(m);
    assert FreshnessByAge(now - created) == FreshnessByDate(created, now);
  }

  // ---------- what a total is made of ----------

  /** The vibe score is where raw points and the hundred above them balance; it never reaches a hundred. */
  lemma {:induction false} SaturationExactly(raw: real)
    ensures Saturate(raw).Some? <==> raw != -100.0
    ensures Saturate(raw).Some? ==> Saturate(raw).value * (raw + 100.0) == 100.0 * raw
    ensures raw >= 0.0 ==> 0.0 <= Saturate(raw).value < 100.0
  {
    if raw + 100.0 != 0.0 {
      var q := 100.0 * raw / (raw + 100.0);
      assert q * (raw + 100.0) == 100.0 * raw;
      if raw >= 0.0 {
        if q >= 100.0 { ProductGrows(q, 100.0, raw + 100.0); }
        if q < 0.0 { ProductGrows(0.0, q, raw + 100.0); }
      }
    }
  }

  lemma {:induction false} ProductGrows(a: real, b: real, factor: real)
    requires factor > 0.0
    ensures a >= b ==> a * factor >= b * factor
    ensures a > b ==> a * factor > b * factor
  {
  }

  /** One preferred concept, or ten points of learned weight, is half the way; nothing in common is nothing. */
  lemma {:induction false} VibeScale(m: Match)
    ensures m.preferred == 0 && m.weighted <= 0.0 ==> PythonVibe(m) == Some(0.0)
    ensures m == Match(1, 0.0) || m == Match(0, 10.0) ==> PythonVibe(m) == Some(50.0)
  {
    SaturationExactly(100.0);
    assert Saturate(100.0).value * 200.0 == 10000.0;
    assert m == Match(1, 0.0) || m == Match(0, 10.0) ==> m.preferred as real * 100.0 + m.weighted * 10.0 == 100.0;
  }

  /** How many of the three deadlines, a day, two days and a week, have passed. */
  function DeadlinesPassed(age: int): nat {
    (if age > 86400 then 1 else 0) + (if age > 172800 then 1 else 0) + (if age > 604800 then 1 else 0)
  }

  /**
   On both sides, a new event without interactions or common vibes has 25 points. Vibe
   adds half its score, each of the first ten interactions two and a half points, and
   each deadline passed takes three and three quarters.
   */
  lemma {:induction false} TotalIsMadeOf(m: Match, raw: real, interactions: nat, created: int, now: int)
    ensures var rest := 25.0 + 2.5 * Min(interactions, 10) as real - 3.75 * DeadlinesPassed(now - created) as real;
      && PythonTotal(m, interactions, created, now) ==
           (if PythonVibe(m).Some? then Some(PythonVibe(m).value / 2.0 + rest) else None)
      && SqlTotal(raw, interactions, created, now) ==
           (if Saturate(raw).Some? then Some(Saturate(raw).value / 2.0 + rest) else None)
  {
  }

  lemma {:induction false} LearnedIsNotNegative(synonyms: map<string, string>, profile: seq<Weight>, key: string)
    requires forall w :: w in profile ==> w.score > 0.0
    ensures Learned(synonyms, profile, key) >= 0.0
  {
    if profile != [] {
      assert profile[|profile| - 1] in profile;
      assert forall w :: w in profile[..|profile| - 1] ==> w in profile;
      LearnedIsNotNegative(synonyms, profile[..|profile| - 1], key);
    }
  }

  lemma {:induction false} SumIsNotNegative(keys: seq<string>, f: string -> real)
    requires forall k :: k in keys ==> f(k) >= 0.0
    ensures Sum(keys, f) >= 0.0
  {
    if keys != [] {
      assert keys[|keys| - 1] in keys;
      SumIsNotNegative(keys[..|keys| - 1], f);
    }
  }

  /** Stored profiles hold positive weights only, so for every user the two totals are the same. */
  lemma {:induction false} TotalsAgreeForStoredProfiles(synonyms: map<string, string>, tags: seq<string>,
                                                        vibes: set<string>,
                                                        profile: seq<Weight>, interactions: nat, created: int, now: int)
    requires forall w :: w in profile ==> w.score > 0.0
    ensures var m := MatchOf(synonyms, tags, vibes, profile);
      SqlTotal(m.preferred as real * 100.0 + m.weighted * 10.0, interactions, created, now)
      == PythonTotal(m, interactions, created, now) != None
  {
    var concepts := Concepts(synonyms, tags);
    forall k | k in concepts
      ensures LearnedOf(synonyms, profile)(k) >= 0.0
    {
      LearnedIsNotNegative(synonyms, profile, k);
    }
    SumIsNotNegative(concepts, LearnedOf(synonyms, profile));
    TotalsAgreeExactly(MatchOf(synonyms, tags, vibes, profile), interactions, created, now);
  }
}
