/** The learned vibe profile of a user: every signal adds its decayed weight to the tags it names. */
module UserProfile {
  import opened Prelude
  import opened Lists
  import opened Tags
  import opened Scoring

  /** One stored signal with its event's tags, and its weight after decay. */
  datatype Signal = Signal(vibeTag: string, eventTags: seq<string>, contribution: real)

  function CanonicalOf(): string -> Option<string> {
    tag => CanonicalTag(tag)
  }

  /** `_normalize_tags` */
  function Normalized(tags: seq<string>): seq<string> {
    Dedupe(FilterMap(tags, CanonicalOf()))
  }

  /** The tags a signal speaks for: its own, else its event's. */
  function TagsOf(s: Signal): seq<string> {
    Normalized(if s.vibeTag != "" then [s.vibeTag] else s.eventTags)
  }

  /** What one signal adds to a tag. */
  function Share(s: Signal, key: string): real {
    if s.contribution > 0.0 && key in TagsOf(s) then s.contribution else 0.0
  }

  function Contributed(signals: seq<Signal>, key: string): real {
    if signals == [] then 0.0 else Contributed(signals[..|signals| - 1], key) + Share(signals[|signals| - 1], key)
  }

  predicate Named(signals: seq<Signal>, key: string) {
    exists s :: s in signals && s.contribution > 0.0 && key in TagsOf(s)
  }

  /** The profile of these signals: each tag they name once, with all they contribute to it, which is positive. */
  ghost predicate ProfileOf(signals: seq<Signal>, profile: seq<Weight>) {
    && (forall i, j :: 0 <= i < j < |profile| ==> profile[i].tag != profile[j].tag)
    && (forall w :: w in profile ==> w.score == Contributed(signals, w.tag) > 0.0)
    && (forall key :: Named(signals, key) <==> exists w :: w in profile && w.tag == key)
  }

  /** A dictionary of scores with its keys in insertion order. */
  datatype Scores = Scores(order: seq<string>, values: map<string, real>)

  ghost predicate Pooled(scores: Scores, signals: seq<Signal>) {
    && NoDuplicates(scores.order)
    && (forall k :: k in scores.order <==> k in scores.values)
    && (forall k :: k in scores.values <==> Named(signals, k))
    && (forall k :: k in scores.values ==> scores.values[k] == Contributed(signals, k) > 0.0)
  }

  lemma {:induction false} UnnamedContributesNothing(signals: seq<Signal>, key: string)
    ensures Contributed(signals, key) >= 0.0
    ensures !Named(signals, key) ==> Contributed(signals, key) == 0.0
    ensures Named(signals, key) ==> Contributed(signals, key) > 0.0
  {
    if signals != [] {
      var init, last := signals[..|signals| - 1], signals[|signals| - 1];
      assert signals == init + [last];
      UnnamedContributesNothing(init, key);
      assert Named(signals, key) <==> Named(init, key) || Share(last, key) > 0.0;
    }
  }

  lemma {:induction false} OneMoreSignal(signals: seq<Signal>, s: Signal, key: string)
    ensures Contributed(signals + [s], key) == Contributed(signals, key) + Share(s, key)
    ensures Named(signals + [s], key) <==> Named(signals, key) || Share(s, key) > 0.0
  {
    assert (signals + [s])[..|signals|] == signals;
    assert forall t :: t in signals + [s] <==> t in signals || t == s;
  }

  /** A canonical tag is lower-case already. */
  lemma {:induction false} CanonicalIsLower(tag: string)
    requires IsCanonical(tag)
    ensures Lower(tag) == tag
  {
    AllowedIsLower(tag[1..]);
    assert tag == [tag[0]] + tag[1..];
  }

  lemma {:induction false} AllowedIsLower(s: string)
    requires forall i :: 0 <= i < |s| ==> IsAllowed(s[i])
    ensures Lower(s) == s
  {
    if s != "" {
      assert forall i :: 0 <= i < |s[1..]| ==> s[1..][i] == s[i + 1];
      AllowedIsLower(s[1..]);
    }
  }

  lemma {:induction false} NormalizedSpec(tags: seq<string>)
    ensures NoDuplicates(Normalized(tags))
    ensures forall t :: t in Normalized(tags) ==> Lower(t) == t
  {
    DedupeSpec(FilterMap(tags, CanonicalOf()));
    FilterMapMembers(tags, CanonicalOf());
    forall t | t in Normalized(tags)
      ensures Lower(t) == t
    {
      var raw :| raw in tags && CanonicalOf()(raw) == Some(t);
      BothSidesNormalizeAlike(raw);
      CanonicalIsLower(t);
    }
  }

  ghost predicate WellKept(scores: Scores) {
    NoDuplicates(scores.order) && forall k :: k in scores.order <==> k in scores.values
  }

  /** `scores[key] = scores.get(key, 0.0) + contribution` */
  method Credit(scores: Scores, key: string, amount: real) returns (after: Scores)
    requires WellKept(scores)
    ensures WellKept(after) && after.values.Keys == scores.values.Keys + {key}
    ensures forall k :: At(after.values, k) == At(scores.values, k) + (if k == key then amount else 0.0)
  {
    var value := At(scores.values, key) + amount;
    after := Scores(if key in scores.values then scores.order else scores.order + [key], scores.values[key := value]);
  }

  function Elements(tags: seq<string>): set<string> {
    set t | t in tags
  }

  /** The inner loop: one contribution to each of a signal's tags. */
  method CreditAll(scores: Scores, tags: seq<string>, amount: real) returns (after: Scores)
    requires WellKept(scores) && NoDuplicates(tags) && forall t :: t in tags ==> Lower(t) == t
    ensures WellKept(after) && after.values.Keys == scores.values.Keys + Elements(tags)
    ensures forall k :: At(after.values, k) == At(scores.values, k) + (if k in tags then amount else 0.0)
  {
    after := scores;
    for i := 0 to |tags|
      invariant WellKept(after) && after.values.Keys == scores.values.Keys + Elements(tags[..i])
      invariant forall k :: At(after.values, k) == At(scores.values, k) + (if k in tags[..i] then amount else 0.0)
    {
      assert tags[..i + 1] == tags[..i] + [tags[i]];
      assert tags[i] !in tags[..i];
      assert Lower(tags[i]) == tags[i];
      after := Credit(after, Lower(tags[i]), amount);
    }
    assert tags[..|tags|] == tags;
  }

  method CreditSignal(scores: Scores, ghost signals: seq<Signal>, s: Signal) returns (after: Scores)
    requires Pooled(scores, signals) && s.contribution > 0.0
    ensures Pooled(after, signals + [s])
  {
    NormalizedSpec(if s.vibeTag != "" then [s.vibeTag] else s.eventTags);
    after := CreditAll(scores, TagsOf(s), s.contribution);
    CreditedPools(scores, after, signals, s);
  }

  lemma {:induction false} CreditedPools(scores: Scores, after: Scores, signals: seq<Signal>, s: Signal)
    requires Pooled(scores, signals) && s.contribution > 0.0 && WellKept(after)
    requires after.values.Keys == scores.values.Keys + Elements(TagsOf(s))
    requires forall k :: At(after.values, k) == At(scores.values, k) + (if k in TagsOf(s) then s.contribution else 0.0)
    ensures Pooled(after, signals + [s])
  {
    forall k
      ensures k in after.values <==> Named(signals + [s], k)
      ensures k in after.values ==> after.values[k] == Contributed(signals + [s], k) > 0.0
    {
      OneMoreSignal(signals, s, k);
      UnnamedContributesNothing(signals, k);
      assert At(after.values, k) == Contributed(signals + [s], k);
      assert k in after.values <==> k in scores.values || k in TagsOf(s);
    }
  }

  /** `compute_vibe_scores_for_user`: signals that have decayed to nothing are skipped. */
  method ComputeVibeScores(signals: seq<Signal>) returns (profile: seq<Weight>)
    ensures ProfileOf(signals, profile)
  {
    var scores := Scores([], map[]);
    for i := 0 to |signals|
      invariant Pooled(scores, signals[..i])
    {
      assert signals[..i + 1] == signals[..i] + [signals[i]];
      if signals[i].contribution <= 0.0 {
        SkippedSignal(scores, signals[..i], signals[i]);
        continue;
      }
      scores := CreditSignal(scores, signals[..i], signals[i]);
    }
    assert signals[..|signals|] == signals;
    profile := seq(|scores.order|,
                   i requires 0 <= i < |scores.order| => Weight(scores.order[i], scores.values[scores.order[i]]));
    ListedProfile(scores, signals, profile);
  }

  lemma {:induction false} SkippedSignal(scores: Scores, signals: seq<Signal>, s: Signal)
    requires Pooled(scores, signals) && s.contribution <= 0.0
    ensures Pooled(scores, signals + [s])
  {
    forall k
      ensures Named(signals + [s], k) <==> Named(signals, k)
      ensures Contributed(signals + [s], k) == Contributed(signals, k)
    {
      OneMoreSignal(signals, s, k);
    }
  }

  lemma {:induction false} ListedProfile(scores: Scores, signals: seq<Signal>, profile: seq<Weight>)
    requires Pooled(scores, signals) && |profile| == |scores.order|
    requires forall i :: 0 <= i < |profile| ==> profile[i] == Weight(scores.order[i], scores.values[scores.order[i]])
    ensures ProfileOf(signals, profile)
  {
    forall key
      ensures Named(signals, key) <==> exists w :: w in profile && w.tag == key
    {
      if Named(signals, key) {
        assert key in scores.order;
        var i :| 0 <= i < |scores.order| && scores.order[i] == key;
        assert profile[i] in profile && profile[i].tag == key;
      }
    }
  }
}
