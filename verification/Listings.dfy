/**
 The listing that flows through ingestion, both as a stored event row and as a
 normalised provider payload, and the outside world the pipeline consults.
 */
module Listings {
  import opened Prelude
  import opened Lists
  import opened Text

  const HOUR_MICROS: int := 3600 * 1000000  // times are UTC microseconds

  datatype Listing = Listing(
    title: string,
    description: Option<string>,
    startAt: int,
    estimated: bool,
    endAt: Option<int>,
    sourceName: string,
    sourceTier: int,
    sourceEventId: Option<string>,
    externalUrl: Option<string>,
    venueName: Option<string>,
    rawAddress: Option<string>,
    city: Option<string>,
    location: string,
    categories: seq<string>,
    performers: seq<string>,
    genres: seq<string>,
    tags: seq<string>,
    price: Option<real>,
    currency: Option<string>,
    imageUrl: Option<string>,
    status: string,
    organizer: Option<string>,
    attendees: nat,
    confidence: real,
    isFree: bool
  )

  /** A listing id as a provider issued it. */
  datatype Identity = Identity(name: string, id: string)

  /**
   What the pipeline asks of the world: the SF calendar, text similarity, case
   folding, the category and vibe vocabularies, and point equality as the
   database driver reports it (which may call equal points different).
   */
  datatype Env = Env(
    day: int -> int,
    dayStart: int -> int,
    dayEnd: int -> int,
    fold: string -> string,
    textSimilarity: (string, string) -> real,
    tokenSimilarity: (string, string) -> real,
    category: string -> Option<string>,
    vibe: string -> Option<string>,
    inferCategories: (string, Option<string>, seq<string>) -> seq<string>,
    legacyGenre: string -> bool,
    samePoint: (string, string) -> bool,
    hash: Listing -> string
  )

  /** Every local day is the half-open interval between its two midnights. */
  ghost predicate Calendar(env: Env) {
    forall t, u :: env.day(t) == env.day(u) <==> env.dayStart(t) <= u < env.dayEnd(t)
  }

  /** A classifier whose canonical names are not blank and stand for themselves. */
  ghost predicate Canonicalizes(f: string -> Option<string>) {
    forall v :: f(v).Some? ==> f(v).value != "" && f(f(v).value) == f(v)
  }

  ghost predicate Vocabulary(env: Env) {
    Canonicalizes(env.category) && Canonicalizes(env.vibe)
  }

  function CategoriesV1(env: Env, values: seq<string>): seq<string> {
    Dedupe(FilterMap(values, env.category))
  }

  function CanonicalVibeTags(env: Env, tags: seq<string>): seq<string> {
    Dedupe(FilterMap(tags, env.vibe))
  }

  /** Only connector ids known to identify one event survive a change of date. */
  predicate Stable(l: Listing) {
    && l.sourceEventId.Some?
    && var key := l.sourceEventId.value;
       var isUrl := StartsWith(key, "http://") || StartsWith(key, "https://");
       && key != ""
       && (if l.sourceName == "ticketmaster" || l.sourceName == "meetup" then true
           else if l.sourceName == "eventbrite" then !isUrl || Contains(key, "/e/")
           else if l.sourceName == "luma" then !isUrl && !StartsWith(key, "luma-")
           else l.sourceName == "reddit" && (!isUrl || Contains(key, "/comments/")))
  }

  predicate IsUrl(key: string) {
    |key| >= 7 && (key[..7] == "http://" || (|key| >= 8 && key[..8] == "https://"))
  }

  /** Which ids outlive a change of date, provider by provider. */
  lemma {:induction false} StableIds(l: Listing, key: string)
    requires l.sourceEventId == Some(key) && key != ""
    ensures l.sourceName == "ticketmaster" || l.sourceName == "meetup" ==> Stable(l)
    ensures l.sourceName == "eventbrite" ==> (Stable(l) <==> (IsUrl(key) ==> Contains(key, "/e/")))
    ensures l.sourceName == "luma" ==> (Stable(l) <==> !IsUrl(key) && !(|key| >= 5 && key[..5] == "luma-"))
    ensures l.sourceName == "reddit" ==> (Stable(l) <==> (IsUrl(key) ==> Contains(key, "/comments/")))
    ensures l.sourceName !in {"ticketmaster", "meetup", "eventbrite", "luma", "reddit"} ==> !Stable(l)
  {
  }

  function IdentityOf(l: Listing): Identity
    requires Stable(l)
  {
    Identity(l.sourceName, l.sourceEventId.value)
  }

  predicate SameSourceIdentity(left: Listing, right: Listing) {
    Stable(left) && left.sourceName == right.sourceName && left.sourceEventId == right.sourceEventId
  }

  function NonBlank(x: string): Option<string> {
    if x == "" then None else Some(x)
  }

  /** `_merge_lists`: left first, empty strings and repeats dropped. */
  function MergeLists(left: seq<string>, right: seq<string>): seq<string> {
    Dedupe(FilterMap(left + right, NonBlank))
  }

  predicate IsMissing(value: Option<string>) {
    value.None? || Strip(value.value) == ""
  }

  const LABEL_LENGTH: nat := 200
  const LABEL_COUNT: nat := 100

  function StripPresent(x: string): Option<string> {
    if Strip(x) == "" then None else Some(Strip(x))
  }

  function ClipPresent(x: string): Option<string> {
    if Strip(x) == "" then None else Some(Take(Strip(x), LABEL_LENGTH))
  }

  function NormalizeList(values: seq<string>): seq<string> {
    Dedupe(FilterMap(values, StripPresent))
  }

  /** `_catalog_labels`: strip, clip to 200, deduplicate, cap at 100. */
  function CatalogLabels(values: seq<string>): seq<string> {
    Take(Dedupe(FilterMap(NormalizeList(values), ClipPresent)), LABEL_COUNT)
  }

  function LegacyGenre(env: Env, x: string): Option<string> {
    if env.legacyGenre(x) then Some(Strip(x)) else None
  }

  function ClampConfidence(c: real): real {
    if c < 0.0 then 0.0 else if c > 1.0 then 1.0 else c
  }

  /** The list, vocabulary and number fields of `_normalize_event_payload`. */
  function Normalize(env: Env, raw: Listing): Listing {
    raw.(
      categories := CategoriesV1(env,
                                 env.inferCategories(Strip(raw.title), raw.description, NormalizeList(raw.categories))),
      performers := CatalogLabels(raw.performers),
      genres := CatalogLabels(NormalizeList(raw.genres) + Dedupe(FilterMap(raw.categories, x => LegacyGenre(env, x)))),
      tags := CanonicalVibeTags(env, NormalizeList(raw.tags)),
      currency := if raw.price.Some? then raw.currency else None,
      confidence := ClampConfidence(raw.confidence)
    )
  }

  const SEARCHABLE_CONFIDENCE: real := 0.5

  datatype GeoAnswer = GeoAnswer(point: string, confidence: real)

  predicate WorthWriting(answer: Option<GeoAnswer>, current: real) {
    answer.Some? && answer.value.confidence >= SEARCHABLE_CONFIDENCE && answer.value.confidence > current
  }

  /** One payload of `enrich_locations`: a coordinate and its confidence move together. */
  function EnrichLocation(l: Listing, answer: Option<GeoAnswer>): Listing {
    if l.confidence < SEARCHABLE_CONFIDENCE && WorthWriting(answer, l.confidence) then
      l.(location := answer.value.point, confidence := answer.value.confidence)
    else l
  }

  /** A provider payload ready for the store, with the hash of its source facts. */
  datatype Observation = Observation(listing: Listing, hash: string)

  /** Normalise, hash the source facts, then add the derived coordinate and tags. */
  function Prepare(env: Env, raw: Listing, answer: Option<GeoAnswer>, llmTags: seq<string>): Observation {
    var l := Normalize(env, raw);
    var located := EnrichLocation(l, answer);
    Observation(located.(tags := CanonicalVibeTags(env, MergeLists(located.tags, llmTags))), env.hash(l))
  }

  /** A label list as `CatalogLabels` leaves it. */
  predicate LabelList(labels: seq<string>) {
    && NoDuplicates(labels)
    && |labels| <= LABEL_COUNT
    && forall x :: x in labels ==> ShortLabel(x)
  }

  predicate ShortLabel(x: string) {
    Strip(x) != "" && |x| <= LABEL_LENGTH
  }

  /** A label that survives another pass of `CatalogLabels` unchanged. */
  predicate CleanLabel(x: string) {
    x != "" && Trimmed(x) && |x| <= LABEL_LENGTH
  }

  predicate CanonicalLists(env: Env, l: Listing) {
    && CategoriesV1(env, l.categories) == l.categories
    && CanonicalVibeTags(env, l.tags) == l.tags
  }

  /** What normalisation guarantees of every payload that reaches the store. */
  predicate Normalized(env: Env, o: Observation) {
    && CanonicalLists(env, o.listing)
    && LabelList(o.listing.performers)
    && LabelList(o.listing.genres)
    && 0.0 <= o.listing.confidence <= 1.0
    && o.hash != ""
  }

  lemma {:induction false} CanonicalIdempotent(s: seq<string>, f: string -> Option<string>)
    requires Canonicalizes(f)
    ensures Dedupe(FilterMap(Dedupe(FilterMap(s, f)), f)) == Dedupe(FilterMap(s, f))
  {
    var d := Dedupe(FilterMap(s, f));
    DedupeSpec(FilterMap(s, f));
    FilterMapMembers(s, f);
    FilterMapFixed(d, f);
    DedupeOfDistinct(d);
  }

  lemma {:induction false} TakeMembers<T>(s: seq<T>, n: nat)
    requires NoDuplicates(s)
    ensures NoDuplicates(Take(s, n)) && |Take(s, n)| <= n
    ensures forall x :: x in Take(s, n) ==> x in s
  {
  }

  lemma {:induction false} CatalogLabelsAreLabels(values: seq<string>)
    ensures LabelList(CatalogLabels(values))
  {
    var n := NormalizeList(values);
    var f := FilterMap(n, ClipPresent);
    DedupeSpec(f);
    TakeMembers(Dedupe(f), LABEL_COUNT);
    FilterMapMembers(n, ClipPresent);
    DedupeSpec(FilterMap(values, StripPresent));
    FilterMapMembers(values, StripPresent);
    forall x | x in CatalogLabels(values)
      ensures ShortLabel(x)
    {
      var y :| y in n && ClipPresent(y) == Some(x);
      StripTrims(y);
      StripFirst(Strip(y), LABEL_LENGTH);
    }
  }

  /** Clipping a nonblank trimmed string leaves a nonblank string. */
  lemma {:induction false} StripFirst(s: string, n: nat)
    requires s != "" && Trimmed(s) && n > 0
    ensures Strip(Take(s, n)) != ""
  {
    var t := Take(s, n);
    LStripShape(t);
    RStripShape(t);
  }

  /** A clipped label is clean exactly when the clip did not end on whitespace. */
  lemma {:induction false} ClipPresentFixes(x: string)
    ensures ClipPresent(x) == Some(x) <==> CleanLabel(x)
    ensures ShortLabel(x) ==> ClipPresent(x) == Some(Strip(x)) && CleanLabel(Strip(x))
  {
    StripTrims(x);
    StripTrims(Take(Strip(x), LABEL_LENGTH));
  }

  lemma {:induction false} NormalizedListMembers(values: seq<string>)
    ensures forall x :: x in NormalizeList(values) <==> exists v :: v in values && Strip(v) == x != ""
  {
    DedupeSpec(FilterMap(values, StripPresent));
    FilterMapMembers(values, StripPresent);
  }

  /** Labels come from what was listed, stripped and clipped; below the cap, all of them do. */
  lemma {:induction false} CatalogLabelsMembers(values: seq<string>)
    ensures forall x :: x in CatalogLabels(values) ==>
              exists v :: v in values && Strip(v) != "" && x == Take(Strip(v), 200)
    ensures |CatalogLabels(values)| < 100 ==>
              forall v :: v in values && Strip(v) != "" ==> Take(Strip(v), 200) in CatalogLabels(values)
  {
    var n := NormalizeList(values);
    var clipped := FilterMap(n, ClipPresent);
    NormalizedListMembers(values);
    FilterMapMembers(n, ClipPresent);
    DedupeSpec(clipped);
    TakeMembers(Dedupe(clipped), LABEL_COUNT);
    forall x | x in CatalogLabels(values)
      ensures exists v :: v in values && Strip(v) != "" && x == Take(Strip(v), 200)
    {
      var s :| s in n && ClipPresent(s) == Some(x);
      var v :| v in values && Strip(v) == s != "";
      StripTrims(v);
    }
    forall v | v in values && Strip(v) != ""
      ensures Take(Strip(v), 200) in clipped
    {
      StripTrims(v);
      assert Strip(v) in n;
      FilterMapHas(n, Strip(v), ClipPresent);
    }
  }

  /**
   What preparing a payload changes: its lists and number fields are brought into
   shape, a currency without a price is dropped, and the coordinate is the geocoder's
   where its own was not searchable and that one is. Nothing else changes.
   */
  lemma {:induction false} PrepareExactly(env: Env, raw: Listing, answer: Option<GeoAnswer>, llmTags: seq<string>)
    requires answer.Some? ==> 0.0 <= answer.value.confidence <= 1.0
    ensures var l, clamped := Prepare(env, raw, answer, llmTags).listing, ClampConfidence(raw.confidence);
      && l == raw.(categories := l.categories, performers := l.performers, genres := l.genres, tags := l.tags,
                   currency := l.currency, confidence := l.confidence, location := l.location)
      && l.currency == (if raw.price.None? then None else raw.currency)
      && (0.0 <= raw.confidence <= 1.0 ==> clamped == raw.confidence) && 0.0 <= clamped <= 1.0
      && (if clamped < 0.5 && answer.Some? && answer.value.confidence >= 0.5
          then l.location == answer.value.point && l.confidence == answer.value.confidence
          else l.location == raw.location && l.confidence == clamped)
      && l.performers == CatalogLabels(raw.performers)
  {
  }

  /** Everything the store is handed has been normalised. */
  lemma {:induction false} PrepareNormalizes(env: Env, raw: Listing, answer: Option<GeoAnswer>, llmTags: seq<string>)
    requires Vocabulary(env)
    requires answer.Some? ==> 0.0 <= answer.value.confidence <= 1.0
    requires env.hash(Normalize(env, raw)) != ""
    ensures Normalized(env, Prepare(env, raw, answer, llmTags))
  {
    CatalogLabelsAreLabels(raw.performers);
    CatalogLabelsAreLabels(NormalizeList(raw.genres) + Dedupe(FilterMap(raw.categories, x => LegacyGenre(env, x))));
    CanonicalIdempotent(env.inferCategories(Strip(raw.title), raw.description, NormalizeList(raw.categories)),
                        env.category);
    var located := EnrichLocation(Normalize(env, raw), answer);
    CanonicalIdempotent(MergeLists(located.tags, llmTags), env.vibe);
  }
}
