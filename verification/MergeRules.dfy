/**
 What a merge comes to for the event, said from the outside: which side each
 field is taken from, by tier, by authority, and by what either side knows. The
 rules name none of the steps the merge takes; `Merging` follows all of them, and
 so does the store, observation by observation.
 */
module MergeRules {
  import opened Prelude
  import opened Lists
  import opened Text
  import opened Listings
  import opened Matching
  import opened Merging
  import opened Ingest
  import opened Invariants

  /** The observation may overrule the row: news from its own provider or a known one, of a tier that is not worse. */
  predicate HasSay(row: Listing, s: Listing, replayed: bool, revised: bool) {
    var same := Stable(row) && s.sourceName == row.sourceName && s.sourceEventId == row.sourceEventId;
    && !replayed && (same || revised)
    && (|| s.sourceTier < row.sourceTier
        || (s.sourceTier == row.sourceTier && (same || row.status == "scheduled")))
  }

  /** An unchanged observation, from a tier that is not better. */
  predicate IsOld(row: Listing, s: Listing, replayed: bool) {
    replayed && row.sourceTier <= s.sourceTier
  }

  /** A guess for the day the row already has a published time on. */
  predicate GuessesKnownDay(env: Env, row: Listing, s: Listing) {
    s.estimated && !row.estimated && env.day(s.startAt) == env.day(row.startAt)
  }

  /**
   The start: an observation with a say sets it, unless it only guesses a known day.
   Without one, a published start beats a guess, then the better tier's beats the
   worse tier's, then the earlier one beats the later.
   */
  predicate StartRule(env: Env, row: Listing, s: Listing, say: bool, stale: bool, after: Listing) {
    if stale || (say && GuessesKnownDay(env, row, s)) then
      after.startAt == row.startAt && after.estimated == row.estimated
    else if say || (row.estimated && !s.estimated) then
      after.startAt == s.startAt && after.estimated == s.estimated
    else if s.estimated && !row.estimated then
      after.startAt == row.startAt && !after.estimated
    else
      && after.estimated == row.estimated
      && (s.sourceTier < row.sourceTier ==> after.startAt == s.startAt)
      && (row.sourceTier < s.sourceTier ==> after.startAt == row.startAt)
      && (s.sourceTier == row.sourceTier ==>
            && (after.startAt == row.startAt || after.startAt == s.startAt)
            && after.startAt <= row.startAt && after.startAt <= s.startAt)
  }

  /** The end is `first`, or `second` where the first is not known. */
  predicate EndIs(end: Option<int>, first: Option<int>, second: Option<int>) {
    if first.Some? then end == first else end == second
  }

  /** An end before the start is dropped. */
  predicate EndKept(end: Option<int>, wanted: Option<int>, start: int) {
    if wanted.Some? && wanted.value < start then end == None else end == wanted
  }

  /** The end goes with the start; the other side's fills in only where the winner has none. */
  predicate EndRule(env: Env, row: Listing, s: Listing, say: bool, stale: bool, after: Listing) {
    if stale then after.endAt == row.endAt
    else if say then
      if GuessesKnownDay(env, row, s) then
        EndKept(after.endAt, if row.endAt.Some? then row.endAt else s.endAt, row.startAt)
      else if s.endAt.None? && s.startAt == row.startAt && s.estimated == row.estimated then
        EndKept(after.endAt, row.endAt, s.startAt)
      else EndKept(after.endAt, s.endAt, s.startAt)
    else if row.estimated != s.estimated then
      if row.estimated then EndIs(after.endAt, s.endAt, row.endAt) else EndIs(after.endAt, row.endAt, s.endAt)
    else if s.sourceTier < row.sourceTier then EndIs(after.endAt, s.endAt, row.endAt)
    else if row.sourceTier < s.sourceTier then EndIs(after.endAt, row.endAt, s.endAt)
    else
      && (after.endAt == row.endAt || after.endAt == s.endAt)
      && (row.endAt.Some? ==> after.endAt.Some? && row.endAt.value <= after.endAt.value)
      && (s.endAt.Some? ==> after.endAt.Some? && s.endAt.value <= after.endAt.value)
  }

  /** A text: old evidence changes nothing, a say sets it, and otherwise the longer of two wordings stands. */
  predicate TextRule(row: Option<string>, s: Option<string>, say: bool, stale: bool, after: Option<string>) {
    if stale || IsMissing(s) then after == row
    else if say || IsMissing(row) then after == s
    else after == if |Strip(s.value)| <= |Strip(row.value)| then row else s
  }

  /** A price: a say sets it, and otherwise the lower of two stands. */
  predicate PriceRule(row: Option<real>, s: Option<real>, say: bool, stale: bool, after: Option<real>) {
    if stale || s.None? then after == row
    else if say || row.None? then after == s
    else after.Some? && after.value <= row.value && after.value <= s.value && (after == row || after == s)
  }

  /** Venue, address or city, where known to both, say that this is another place. */
  predicate Elsewhere(env: Env, row: Listing, s: Listing) {
    || (&& !IsMissing(row.venueName) && !IsMissing(s.venueName)
        && (|| NormalizeVenue(env, row.venueName) == ""
            || NormalizeVenue(env, row.venueName) != NormalizeVenue(env, s.venueName)))
    || (&& !IsMissing(row.rawAddress) && !IsMissing(s.rawAddress)
        && env.fold(Strip(row.rawAddress.value)) != env.fold(Strip(s.rawAddress.value)))
    || (&& !IsMissing(row.city) && !IsMissing(s.city)
        && env.fold(Strip(row.city.value)) != env.fold(Strip(s.city.value)))
  }

  /** The observation names another venue or address than the row. */
  predicate Moves(row: Listing, s: Listing) {
    || (!IsMissing(s.venueName) && s.venueName != row.venueName)
    || (!IsMissing(s.rawAddress) && s.rawAddress != row.rawAddress)
  }

  /** Venue and address are texts that stay put when an observation without a say describes another place. */
  predicate WhereRule(env: Env, row: Listing, s: Listing, say: bool, stale: bool, after: Listing) {
    if !say && Elsewhere(env, row, s) then after.venueName == row.venueName && after.rawAddress == row.rawAddress
    else
      && TextRule(row.venueName, s.venueName, say, stale, after.venueName)
      && TextRule(row.rawAddress, s.rawAddress, say, stale, after.rawAddress)
  }

  /**
   The coordinate is the observation's when it has a say and moved or is as sure, or else
   is surer of the same place.
   */
  predicate PointRule(env: Env, row: Listing, s: Listing, say: bool, after: Listing) {
    var taken :=
      if say then Moves(row, s) || s.confidence >= row.confidence
      else !Elsewhere(env, row, s) && s.confidence > row.confidence;
    && after.city == row.city
    && after.location == (if taken then s.location else row.location)
    && after.confidence == (if taken then s.confidence else row.confidence)
  }

  /**
   The status: a say sets it, save that a past event at its old time stays past; otherwise
   it only gets more severe.
   */
  predicate StatusRule(row: Listing, s: Listing, say: bool, stale: bool, after: Listing) {
    if stale then after.status == row.status
    else if say then after.status == if row.status == "past" && after.startAt == row.startAt then "past" else s.status
    else after.status == if Severity(s.status) > Severity(row.status) then s.status else row.status
  }

  /** Owner, tier and link: the better tier's, or those of an observation with a say. */
  predicate OwnerRule(row: Listing, s: Listing, say: bool, stale: bool, after: Listing) {
    var owner := if !stale && (say || s.sourceTier < row.sourceTier) then s else row;
    && after.sourceName == owner.sourceName && after.sourceEventId == owner.sourceEventId
    && after.sourceTier == owner.sourceTier && after.externalUrl == owner.externalUrl
  }

  /** Attendance and admission: a say sets them, otherwise the larger count and the free side stand. */
  predicate AttendanceRule(row: Listing, s: Listing, say: bool, stale: bool, after: Listing) {
    if stale then after.attendees == row.attendees && after.isFree == row.isFree
    else if say then after.attendees == s.attendees && after.isFree == s.isFree
    else
      && after.attendees >= row.attendees && after.attendees >= s.attendees
      && (after.attendees == row.attendees || after.attendees == s.attendees)
      && (after.isFree <==> row.isFree || s.isFree)
  }

  /** Categories and tags only accumulate. */
  ghost predicate TagsRule(row: Listing, s: Listing, after: Listing) {
    && (forall x :: x in after.categories <==> x in row.categories || x in s.categories)
    && (forall x :: x in after.tags <==> x in row.tags || x in s.tags)
  }

  /** Performers or genres: a say that lists any replaces them, otherwise they accumulate. */
  ghost predicate LabelsRule(row: seq<string>, s: seq<string>, say: bool, stale: bool, after: seq<string>) {
    if stale then after == row
    else if say && s != [] then after == s
    else forall x :: x in after <==> x != "" && (x in row || x in s)
  }

  predicate WordingRules(row: Listing, s: Listing, say: bool, stale: bool, after: Listing) {
    && TextRule(Some(row.title), Some(s.title), say, stale, Some(after.title))
    && TextRule(row.description, s.description, say, stale, after.description)
    && TextRule(row.currency, s.currency, say, stale, after.currency)
    && TextRule(row.imageUrl, s.imageUrl, say, stale, after.imageUrl)
    && TextRule(row.organizer, s.organizer, say, stale, after.organizer)
    && PriceRule(row.price, s.price, say, stale, after.price)
  }

  /** All the rules at once, label lists aside. */
  ghost predicate Follows(env: Env, row: Listing, s: Listing, replayed: bool, revised: bool, after: Listing) {
    var say, stale := HasSay(row, s, replayed, revised), IsOld(row, s, replayed);
    && StartRule(env, row, s, say, stale, after) && EndRule(env, row, s, say, stale, after)
    && WordingRules(row, s, say, stale, after) && WhereRule(env, row, s, say, stale, after)
    && PointRule(env, row, s, say, after) && StatusRule(row, s, say, stale, after)
    && OwnerRule(row, s, say, stale, after) && AttendanceRule(row, s, say, stale, after)
    && TagsRule(row, s, after)
  }

  /** How severe the four statuses are; any other counts as scheduled. */
  lemma {:induction false} SeverityRanks(status: string)
    ensures Severity("scheduled") < Severity("postponed") < Severity("cancelled") < Severity("past")
    ensures status !in {"postponed", "cancelled", "past"} ==> Severity(status) == Severity("scheduled")
  {
  }

  lemma {:induction false} SayIsAuthority(row: Listing, s: Listing, replayed: bool, revised: bool)
    ensures HasSay(row, s, replayed, revised) <==> Authoritative(row, s, replayed, revised)
    ensures IsOld(row, s, replayed) <==> HeldBack(row, s, replayed)
    ensures !(HasSay(row, s, replayed, revised) && IsOld(row, s, replayed))
  {
  }

  lemma {:induction false} TimesFollow(env: Env, row: Listing, s: Listing, say: bool, stale: bool, matches: bool)
    requires !(say && stale) && (say ==> s.sourceTier <= row.sourceTier)
    ensures var after := MergedBy(env, row, s, say, stale, matches).listing;
            StartRule(env, row, s, say, stale, after) && EndRule(env, row, s, say, stale, after)
  {
  }

  lemma {:induction false} WordsFollow(env: Env, row: Listing, s: Listing, say: bool, stale: bool, matches: bool)
    ensures WordingRules(row, s, say, stale, MergedBy(env, row, s, say, stale, matches).listing)
  {
  }

  lemma {:induction false} PlacesFollow(env: Env, row: Listing, s: Listing, replayed: bool, revised: bool)
    requires 0.0 <= row.confidence <= 1.0 && 0.0 <= s.confidence <= 1.0
    ensures var say, stale := Authoritative(row, s, replayed, revised), HeldBack(row, s, replayed);
            var m := Merged(env, row, s, replayed, revised);
            WhereRule(env, row, s, say, stale, m.listing) && PointRule(env, row, s, say, Applied(row, m))
  {
    assert Elsewhere(env, row, s) <==> !LocationContextMatches(env, row, s);
  }

  lemma {:induction false} OwnersFollow(env: Env, row: Listing, s: Listing, replayed: bool, revised: bool)
    ensures var say, stale := Authoritative(row, s, replayed, revised), HeldBack(row, s, replayed);
            var after := Applied(row, Merged(env, row, s, replayed, revised));
            StatusRule(row, s, say, stale, after) && OwnerRule(row, s, say, stale, after)
            && AttendanceRule(row, s, say, stale, after)
  {
    SayIsAuthority(row, s, replayed, revised);
  }

  lemma {:induction false} TagsFollow(env: Env, row: Listing, s: Listing)
    requires Vocabulary(env) && CanonicalLists(env, row) && CanonicalLists(env, s)
    ensures forall x :: x in CategoriesV1(env, MergeLists(row.categories, s.categories)) <==>
              x in row.categories || x in s.categories
    ensures forall x :: x in MergeLists(row.tags, s.tags) <==> x in row.tags || x in s.tags
  {
    MergeListsCanonical(row.categories, s.categories, env.category);
    MergeListsMembers(row.categories, s.categories);
    MergeListsMembers(row.tags, s.tags);
    CanonicalMembersAreFixed(row.categories, env.category);
    CanonicalMembersAreFixed(s.categories, env.category);
    CanonicalMembersAreFixed(row.tags, env.vibe);
    CanonicalMembersAreFixed(s.tags, env.vibe);
  }

  /** A stored row after a merge follows every rule. */
  lemma {:induction false} UpdatedFollows(env: Env, row: Listing, s: Listing, replayed: bool, revised: bool)
    requires Vocabulary(env) && StoredRow(env, row) && CanonicalLists(env, s) && 0.0 <= s.confidence <= 1.0
    ensures Follows(env, row, s, replayed, revised, Updated(env, row, s, replayed, revised))
  {
    var say, stale := Authoritative(row, s, replayed, revised), HeldBack(row, s, replayed);
    var matches := LocationContextMatches(env, row, s);
    StoredRowReadsBack(env, row);
    SayIsAuthority(row, s, replayed, revised);
    TimesFollow(env, row, s, say, stale, matches);
    WordsFollow(env, row, s, say, stale, matches);
    PlacesFollow(env, row, s, replayed, revised);
    OwnersFollow(env, row, s, replayed, revised);
    TagsFollow(env, row, s);
  }

  /** So do its label lists, before provenance recomputes them. */
  lemma {:induction false} LabelsFollow(env: Env, row: Listing, s: Listing, replayed: bool, revised: bool)
    requires StoredRow(env, row)
    ensures var say, stale := HasSay(row, s, replayed, revised), IsOld(row, s, replayed);
            var after := Updated(env, row, s, replayed, revised);
            && LabelsRule(row.performers, s.performers, say, stale, after.performers)
            && LabelsRule(row.genres, s.genres, say, stale, after.genres)
  {
    StoredRowReadsBack(env, row);
    SayIsAuthority(row, s, replayed, revised);
    MergeListsMembers(row.performers, s.performers);
    MergeListsMembers(row.genres, s.genres);
  }

  /** The row an observation leaves: the payload itself, the row as it was, or one that follows the rules. */
  ghost predicate Leaves(env: Env, st: Store, o: Observation, target: Option<nat>, after: Listing)
    requires target.Some? ==> target.value in st.events
  {
    if target.None? then SameButLabels(after, o.listing.(city := None))
    else
      var row := st.events[target.value];
      if Significant(env, row, o.listing, IsReplay(st, o), IsRevision(st, o)) then
        Follows(env, row, o.listing, IsReplay(st, o), IsRevision(st, o), after)
      else SameButLabels(after, row)
  }

  /**
   One observation, in any reachable state: it opens an event that shows its facts,
   or the event it is routed to is left alone or merged by the rules; no other
   event changes.
   */
  lemma {:induction false} ObservationFollows(env: Env, st: Store, o: Observation, scan: seq<nat>)
    requires Vocabulary(env) && Inv(env, st) && Normalized(env, o)
    ensures Process(env, st, o, scan).Ok?
    ensures var target, out := FindExisting(env, st, o, scan).target, Process(env, st, o, scan).value;
            && (if target.None? then out.id !in st.events else out.id == target.value)
            && out.store.events.Keys == st.events.Keys + {out.id}
            && Leaves(env, st, o, target, out.store.events[out.id])
            && forall other :: other in st.events && other != out.id ==> out.store.events[other] == st.events[other]
  {
    var route := FindExisting(env, st, o, scan);
    ProcessTouchesOneEvent(env, st, o, scan);
    RouteFlags(env, st, o, scan);
    if route.target.Some? {
      var after := Process(env, st, o, scan).value.store.events[route.target.value];
      UpdatedFollows(env, st.events[route.target.value], o.listing, route.replayed, route.revised);
      LabelsAside(env, st.events[route.target.value], o.listing, route.replayed, route.revised,
                  Updated(env, st.events[route.target.value], o.listing, route.replayed, route.revised), after);
    }
  }

  lemma {:induction false} LabelsAside(env: Env, row: Listing, s: Listing, replayed: bool, revised: bool,
                                       a: Listing, b: Listing)
    requires Follows(env, row, s, replayed, revised, a)
    ensures SameButLabels(b, a) ==> Follows(env, row, s, replayed, revised, b)
  {
  }

  /** Everything a revision may replace is the same. */
  predicate SameFacts(a: Listing, b: Listing) {
    && a.title == b.title && a.description == b.description && a.organizer == b.organizer
    && a.startAt == b.startAt && a.endAt == b.endAt && a.status == b.status
    && a.price == b.price && a.currency == b.currency && a.isFree == b.isFree && a.attendees == b.attendees
    && a.venueName == b.venueName && a.rawAddress == b.rawAddress
    && a.externalUrl == b.externalUrl && a.imageUrl == b.imageUrl
    && a.performers == b.performers && a.genres == b.genres
  }

  /** What is not known before is not known after. */
  predicate NoGapFilled(row: Listing, after: Listing) {
    && (IsMissing(row.description) ==> IsMissing(after.description))
    && (IsMissing(row.externalUrl) ==> IsMissing(after.externalUrl))
    && (IsMissing(row.venueName) ==> IsMissing(after.venueName))
    && (IsMissing(row.rawAddress) ==> IsMissing(after.rawAddress))
    && (IsMissing(row.imageUrl) ==> IsMissing(after.imageUrl))
    && (IsMissing(row.currency) ==> IsMissing(after.currency))
    && (row.endAt.None? ==> after.endAt.None?) && (row.price.None? ==> after.price.None?)
  }

  /** Another description is at most thirty characters longer, or nearly the same. */
  predicate HardlyLonger(env: Env, row: Listing, s: Listing, after: Listing) {
    row.description.Some? && s.description.Some? && after.description != row.description ==>
      || (after.description.Some? && |Strip(after.description.value)| <= |Strip(row.description.value)| + 30)
      || env.textSimilarity(row.description.value, s.description.value) >= 95.0
  }

  /** The times are at most half an hour apart, and a guess is still a guess. */
  predicate TimeHardlyMoves(row: Listing, after: Listing) {
    && after.estimated == row.estimated
    && (!row.estimated ==> -HOUR_MICROS <= 2 * (after.startAt - row.startAt) <= HOUR_MICROS)
  }

  /**
   What passing an observation over can cost: no category, tag or label, no gap
   filled, no rise in severity, no published time where there was a guess, half an
   hour, and a twentieth of confidence. From a source that may revise the event it
   costs no fact at all.
   */
  lemma {:induction false} PassingOverCostsLittle(env: Env, row: Listing, s: Listing, replayed: bool, revised: bool)
    requires Vocabulary(env) && StoredRow(env, row) && CanonicalLists(env, s) && 0.0 <= s.confidence <= 1.0
    requires !Significant(env, row, s, replayed, revised)
    ensures var after := Updated(env, row, s, replayed, revised);
            && (forall x :: x in after.tags <==> x in row.tags)
            && (forall x :: x in after.categories <==> x in row.categories)
            && after.confidence <= row.confidence + 0.05
    ensures !replayed ==>
              var after := Updated(env, row, s, replayed, revised);
              && after.status == row.status && NoGapFilled(row, after) && TimeHardlyMoves(row, after)
              && (forall x :: x in after.performers ==> x in row.performers)
              && (forall x :: x in after.genres ==> x in row.genres)
              && HardlyLonger(env, row, s, after)
              && (SameSourceIdentity(row, s) || revised ==> SameFacts(row, after))
              && (HasSay(row, s, replayed, revised) ==>
                    after.location == row.location || env.samePoint(after.location, row.location))
  {
    StoredRowReadsBack(env, row);
    UpdatedFollows(env, row, s, replayed, revised);
    LabelsFollow(env, row, s, replayed, revised);
  }

  /** Labels a row can hold: no repeats, none blank. */
  predicate ProperLabels(labels: seq<string>) {
    NoDuplicates(labels) && "" !in labels
  }

  lemma {:induction false} MergeWithItself(labels: seq<string>)
    requires ProperLabels(labels)
    ensures MergeLists(labels, labels) == labels
  {
    FilterMapConcat(labels, labels, NonBlank);
    FilterMapFixed(labels, NonBlank);
    DedupeAbsorb(labels, labels);
    DedupeOfDistinct(labels);
  }

  /** The row's own facts, from some source. */
  ghost predicate Copies(env: Env, row: Listing, s: Listing) {
    && s == row.(sourceName := s.sourceName, sourceTier := s.sourceTier, sourceEventId := s.sourceEventId)
    && ProperLabels(row.performers) && ProperLabels(row.genres)
    && (row.endAt.Some? ==> row.startAt <= row.endAt.value)
    && env.samePoint(row.location, row.location)
  }

  lemma {:induction false} CopyMergesToItself(env: Env, row: Listing, s: Listing, say: bool, stale: bool, matches: bool)
    requires Copies(env, row, s)
    ensures var m := MergedBy(env, row, s, say, stale, matches);
            SameFacts(m.listing, row) && m.listing.location == row.location
  {
    MergeWithItself(row.performers);
    MergeWithItself(row.genres);
  }

  lemma {:induction false} CopyRevisesNothing(env: Env, row: Listing, s: Listing, replayed: bool, revised: bool)
    requires Copies(env, row, s)
    ensures var m := Merged(env, row, s, replayed, revised);
            !RevisionDiffers(m.listing, row) && !m.pointRevised
  {
    CopyMergesToItself(env, row, s, Authoritative(row, s, replayed, revised), HeldBack(row, s, replayed),
                       LocationContextMatches(env, row, s));
  }

  lemma {:induction false} CopyAddsNothing(env: Env, row: Listing, s: Listing)
    requires Copies(env, row, s)
    ensures !FillsGap(row, s) && !LongerDescription(env, row, s) && !EnrichmentImproves(env, row, s)
    ensures !HasNew(s.performers, row.performers) && !HasNew(s.genres, row.genres)
    ensures !HasNew(s.categories, row.categories) && !HasNew(s.tags, row.tags)
  {
  }

  /** An observation that tells of an event what is already stored is passed over, whoever it comes from. */
  lemma {:induction false} CopyIsPassedOver(env: Env, row: Listing, s: Listing, replayed: bool, revised: bool)
    requires StoredRow(env, row) && Copies(env, row, s)
    ensures !Significant(env, row, s, replayed, revised)
  {
    StoredRowReadsBack(env, row);
    CopyRevisesNothing(env, row, s, replayed, revised);
    CopyAddsNothing(env, row, s);
  }
}
