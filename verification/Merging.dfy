/**
 Merging an observation into a stored event: who has authority, what each field
 becomes, when the merge is worth applying, and what may move backwards.

 `Merged` says field by field what the merge yields. `MergeEventPayloads` is the
 merge as it is carried out, overwriting a working copy step by step.
 */
module Merging {
  import opened Prelude
  import opened Lists
  import opened Text
  import opened Listings
  import opened Matching

  function Severity(status: string): nat {
    if status == "postponed" then 1
    else if status == "cancelled" then 2
    else if status == "past" then 3
    else 0
  }

  /** Nothing known about venue, address or city tells the two sides apart. */
  predicate LocationContextMatches(env: Env, left: Listing, right: Listing) {
    && (IsMissing(left.venueName) || IsMissing(right.venueName) || SameVenue(env, left.venueName, right.venueName))
    && SamePlaceText(env, left.rawAddress, right.rawAddress)
    && SamePlaceText(env, left.city, right.city)
  }

  predicate SamePlaceText(env: Env, left: Option<string>, right: Option<string>) {
    IsMissing(left) || IsMissing(right) || env.fold(Strip(left.value)) == env.fold(Strip(right.value))
  }

  function PreferRicher(left: Option<string>, right: Option<string>): Option<string> {
    if IsMissing(left) && !IsMissing(right) then right
    else if IsMissing(right) then left
    else if |Strip(right.value)| > |Strip(left.value)| then right
    else left
  }

  function PreferPrice(left: Option<real>, right: Option<real>): Option<real> {
    if left.None? then right
    else if right.None? then left
    else if left.value <= right.value then left else right
  }

  function PickLatest(left: Option<int>, right: Option<int>): Option<int> {
    if left.None? then right
    else if right.None? then left
    else Some(Max(left.value, right.value))
  }

  function Or<T>(left: Option<T>, right: Option<T>): Option<T> {
    if left.Some? then left else right
  }

  /** May `s`, seen with these hash flags, overrule what `p` stores? */
  predicate Authoritative(p: Listing, s: Listing, replayed: bool, revised: bool) {
    && (|| SameSourceIdentity(p, s)
        || (revised && (s.sourceTier < p.sourceTier || p.status == "scheduled")))
    && s.sourceTier <= p.sourceTier
    && !replayed
  }

  /** Old evidence: an unchanged observation that is not of a better tier. */
  predicate HeldBack(p: Listing, s: Listing, replayed: bool) {
    replayed && s.sourceTier >= p.sourceTier
  }

  datatype Schedule = Schedule(start: int, end: Option<int>, estimated: bool)

  function ScheduleOf(l: Listing): Schedule {
    Schedule(l.startAt, l.endAt, l.estimated)
  }

  /** Neither side overrules: a published time beats a guess, then the better tier, then the wider span. */
  function AgreedSchedule(p: Listing, s: Listing): Schedule {
    if p.estimated != s.estimated then
      var winner, loser := if p.estimated then s else p, if p.estimated then p else s;
      Schedule(winner.startAt, Or(winner.endAt, loser.endAt), false)
    else if p.sourceTier < s.sourceTier then Schedule(p.startAt, Or(p.endAt, s.endAt), p.estimated)
    else if s.sourceTier < p.sourceTier then Schedule(s.startAt, Or(s.endAt, p.endAt), s.estimated)
    else Schedule(Min(p.startAt, s.startAt), PickLatest(p.endAt, s.endAt), p.estimated)
  }

  /** A guess for the day already published leaves the published time standing. */
  predicate AcceptsSchedule(env: Env, p: Listing, s: Listing) {
    !(s.estimated && !p.estimated && env.day(p.startAt) == env.day(s.startAt))
  }

  function RevisedSchedule(env: Env, p: Listing, s: Listing): Schedule {
    var agreed := AgreedSchedule(p, s);
    var changed := p.startAt != s.startAt || p.estimated != s.estimated;
    var accepted :=
      if !AcceptsSchedule(env, p, s) then agreed
      else Schedule(s.startAt, if changed || s.endAt.Some? then s.endAt else agreed.end, s.estimated);
    if accepted.end.Some? && accepted.end.value < accepted.start then accepted.(end := None) else accepted
  }

  predicate VenueChanged(p: Listing, s: Listing) {
    || (!IsMissing(s.venueName) && s.venueName != p.venueName)
    || (!IsMissing(s.rawAddress) && s.rawAddress != p.rawAddress)
  }

  datatype Place = Place(location: string, confidence: real, city: Option<string>)

  function PlaceOf(l: Listing): Place {
    Place(l.location, l.confidence, l.city)
  }

  predicate TakesPoint(p: Listing, s: Listing) {
    VenueChanged(p, s) || ClampConfidence(s.confidence) >= ClampConfidence(p.confidence)
  }

  function MergedPlace(p: Listing, s: Listing, authoritative: bool, matches: bool): Place {
    if authoritative then
      if TakesPoint(p, s) then PlaceOf(s).(confidence := ClampConfidence(s.confidence))
      else PlaceOf(p).(confidence := ClampConfidence(p.confidence))
    else if !matches then PlaceOf(p)
    else if ClampConfidence(s.confidence) > ClampConfidence(p.confidence)
      then PlaceOf(s).(confidence := ClampConfidence(s.confidence))
    else PlaceOf(p).(confidence := ClampConfidence(p.confidence))
  }

  /** A text field: revised by authority, otherwise the richer wording. */
  function MergedText(p: Option<string>, s: Option<string>, authoritative: bool, heldBack: bool): Option<string> {
    if heldBack then p
    else if authoritative && !IsMissing(s) then s
    else PreferRicher(p, s)
  }

  function MergedTitle(p: string, s: string, authoritative: bool, heldBack: bool): string {
    MergedText(Some(p), Some(s), authoritative, heldBack).value
  }

  /** Venue and address also stay put when `s` describes another place. */
  function MergedWhere(p: Option<string>, s: Option<string>, authoritative: bool, heldBack: bool,
                       matches: bool): Option<string> {
    if !authoritative && !matches then p else MergedText(p, s, authoritative, heldBack)
  }

  function MergedStatus(p: Listing, s: Listing, authoritative: bool, heldBack: bool, start: int): string {
    if heldBack then p.status
    else if authoritative then (if p.status == "past" && start == p.startAt then "past" else s.status)
    else if Severity(s.status) > Severity(p.status) then s.status
    else p.status
  }

  function MergedLabels(p: seq<string>, s: seq<string>, authoritative: bool, heldBack: bool): seq<string> {
    if heldBack then p else if authoritative && s != [] then s else MergeLists(p, s)
  }

  datatype Owner = Owner(name: string, id: Option<string>, tier: int, url: Option<string>)

  function OwnerOf(l: Listing): Owner {
    Owner(l.sourceName, l.sourceEventId, l.sourceTier, l.externalUrl)
  }

  /** The owner is one side's name, id, tier and link, never a mix. */
  function MergedOwner(p: Listing, s: Listing, authoritative: bool, heldBack: bool): Owner {
    if !heldBack && (s.sourceTier < p.sourceTier || authoritative) then OwnerOf(s) else OwnerOf(p)
  }

  datatype Merge = Merge(listing: Listing, allowStatusReset: bool, pointRevised: bool)

  /** What merging `s` into `p` yields, one field at a time. */
  function Merged(env: Env, p: Listing, s: Listing, replayed: bool, revised: bool): Merge {
    MergedBy(env, p, s, Authoritative(p, s, replayed, revised), HeldBack(p, s, replayed),
             LocationContextMatches(env, p, s))
  }

  function MergedBy(env: Env, p: Listing, s: Listing, auth: bool, held: bool, matches: bool): Merge {
    var schedule := if held then ScheduleOf(p) else if auth then RevisedSchedule(env, p, s) else AgreedSchedule(p, s);
    var place := MergedPlace(p, s, auth, matches);
    var owner := MergedOwner(p, s, auth, held);
    Merge(
      Listing(
        MergedTitle(p.title, s.title, auth, held),
        MergedText(p.description, s.description, auth, held),
        schedule.start,
        schedule.estimated,
        schedule.end,
        owner.name,
        owner.tier,
        owner.id,
        owner.url,
        MergedWhere(p.venueName, s.venueName, auth, held, matches),
        MergedWhere(p.rawAddress, s.rawAddress, auth, held, matches),
        place.city,
        place.location,
        CategoriesV1(env, MergeLists(p.categories, s.categories)),
        MergedLabels(p.performers, s.performers, auth, held),
        MergedLabels(p.genres, s.genres, auth, held),
        MergeLists(p.tags, s.tags),
        if held then p.price else if auth && s.price.Some? then s.price else PreferPrice(p.price, s.price),
        MergedText(p.currency, s.currency, auth, held),
        MergedText(p.imageUrl, s.imageUrl, auth, held),
        MergedStatus(p, s, auth, held, schedule.start),
        MergedText(p.organizer, s.organizer, auth, held),
        if held then p.attendees else if auth then s.attendees else Max(p.attendees, s.attendees),
        place.confidence,
        if held then p.isFree else if auth then s.isFree else p.isFree || s.isFree
      ),
      auth && !(p.status == "past" && schedule.start == p.startAt),
      auth && TakesPoint(p, s) && !env.samePoint(s.location, p.location)
    )
  }

  /** The time block of the merge: trust rule first, then a revision, then a held-back replay. */
  method MergeSchedule(env: Env, primary: Listing, secondary: Listing, authoritative: bool, heldBack: bool)
    returns (schedule: Schedule)
    ensures schedule == if heldBack then ScheduleOf(primary)
                        else if authoritative then RevisedSchedule(env, primary, secondary)
                        else AgreedSchedule(primary, secondary)
  {
    var startAt, endAt, estimated;
    if primary.estimated != secondary.estimated {
      var winner, loser := primary, secondary;
      if primary.estimated { winner, loser := secondary, primary; }
      startAt, endAt, estimated := winner.startAt, Or(winner.endAt, loser.endAt), false;
    } else if primary.sourceTier < secondary.sourceTier {
      startAt, endAt, estimated := primary.startAt, Or(primary.endAt, secondary.endAt), primary.estimated;
    } else if secondary.sourceTier < primary.sourceTier {
      startAt, endAt, estimated := secondary.startAt, Or(secondary.endAt, primary.endAt), secondary.estimated;
    } else {
      startAt, endAt := Min(primary.startAt, secondary.startAt), PickLatest(primary.endAt, secondary.endAt);
      estimated := primary.estimated;
    }
    if authoritative {
      if !(secondary.estimated && !primary.estimated && env.day(primary.startAt) == env.day(secondary.startAt)) {
        var changed := primary.startAt != secondary.startAt || primary.estimated != secondary.estimated;
        startAt, estimated := secondary.startAt, secondary.estimated;
        if changed || secondary.endAt.Some? { endAt := secondary.endAt; }
      }
      if endAt.Some? && endAt.value < startAt { endAt := None; }
    }
    if heldBack {
      startAt, endAt, estimated := primary.startAt, primary.endAt, primary.estimated;
    }
    schedule := Schedule(startAt, endAt, estimated);
  }

  /** One text field of the merge: richer wording, overwritten by authority, restored when held back. */
  method MergeText(primary: Option<string>, secondary: Option<string>, authoritative: bool, heldBack: bool)
    returns (merged: Option<string>)
    ensures merged == MergedText(primary, secondary, authoritative, heldBack)
  {
    merged := PreferRicher(primary, secondary);
    if authoritative && !IsMissing(secondary) { merged := secondary; }
    if heldBack { merged := primary; }
  }

  /** The location block of the merge. */
  method MergePlace(env: Env, primary: Listing, secondary: Listing, authoritative: bool, matches: bool)
    returns (place: Place, pointRevised: bool)
    ensures place == MergedPlace(primary, secondary, authoritative, matches)
    ensures pointRevised ==
            (authoritative && TakesPoint(primary, secondary) && !env.samePoint(secondary.location, primary.location))
  {
    pointRevised := false;
    var primaryConfidence, secondaryConfidence := ClampConfidence(primary.confidence),
        ClampConfidence(secondary.confidence);
    var confidence := MaxReal(primaryConfidence, secondaryConfidence);
    var winner := if secondaryConfidence > primaryConfidence then secondary else primary;
    var location, city := winner.location, winner.city;
    if authoritative {
      if VenueChanged(primary, secondary) || secondaryConfidence >= primaryConfidence {
        location, confidence, city := secondary.location, secondaryConfidence, secondary.city;
        pointRevised := !env.samePoint(secondary.location, primary.location);
      }
    }
    if !authoritative && !matches {
      location, confidence, city := primary.location, primary.confidence, primary.city;
    }
    place := Place(location, confidence, city);
  }

  /** The status of the merge, and whether it may overrule a stored severity. */
  method MergeStatus(primary: Listing, secondary: Listing, authoritative: bool, heldBack: bool, start: int)
    returns (status: string, reset: bool)
    requires !(authoritative && heldBack)
    ensures status == MergedStatus(primary, secondary, authoritative, heldBack, start)
    ensures reset == (authoritative && !(primary.status == "past" && start == primary.startAt))
  {
    status, reset := primary.status, false;
    if Severity(secondary.status) > Severity(primary.status) { status := secondary.status; }
    if authoritative {
      status := secondary.status;
      if primary.status == "past" && start == primary.startAt {
        status := "past";
      } else {
        reset := true;
      }
    }
    if heldBack { status, reset := primary.status, false; }
  }

  method MergeTitle(primary: string, secondary: string, authoritative: bool, heldBack: bool)
    returns (merged: string)
    ensures merged == MergedTitle(primary, secondary, authoritative, heldBack)
  {
    var title := MergeText(Some(primary), Some(secondary), authoritative, heldBack);
    merged := title.value;
  }

  /** Venue or address: a text field that also stays put when the observation describes another place. */
  method MergeWhere(primary: Option<string>, secondary: Option<string>, authoritative: bool, heldBack: bool,
                    matches: bool)
    returns (merged: Option<string>)
    ensures merged == MergedWhere(primary, secondary, authoritative, heldBack, matches)
  {
    merged := MergeText(primary, secondary, authoritative, heldBack);
    if !authoritative && !matches { merged := primary; }
  }

  /** Owner and link of the merge: the better tier or the authority, restored when held back. */
  method MergeOwner(primary: Listing, secondary: Listing, authoritative: bool, heldBack: bool)
    returns (owner: Owner)
    requires !(authoritative && heldBack) && (authoritative ==> secondary.sourceTier <= primary.sourceTier)
    ensures owner == MergedOwner(primary, secondary, authoritative, heldBack)
  {
    var winner := if secondary.sourceTier < primary.sourceTier || authoritative then secondary else primary;
    var name, id, url := winner.sourceName, winner.sourceEventId, winner.externalUrl;
    var tier := Min(primary.sourceTier, secondary.sourceTier);
    if authoritative && !IsMissing(secondary.externalUrl) { url := secondary.externalUrl; }
    if heldBack {
      name, id, tier, url := primary.sourceName, primary.sourceEventId, primary.sourceTier, primary.externalUrl;
    }
    owner := Owner(name, id, tier, url);
  }

  /** One label list of the merge. */
  method MergeLabelList(primary: seq<string>, secondary: seq<string>, authoritative: bool, heldBack: bool)
    returns (labels: seq<string>)
    ensures labels == MergedLabels(primary, secondary, authoritative, heldBack)
  {
    labels := MergeLists(primary, secondary);
    if authoritative && secondary != [] { labels := secondary; }
    if heldBack { labels := primary; }
  }

  method MergeKeys(env: Env, primary: Listing, secondary: Listing, authoritative: bool, heldBack: bool, matches: bool)
    returns (m: Merge)
    requires !(authoritative && heldBack) && (authoritative ==> secondary.sourceTier <= primary.sourceTier)
    ensures m == MergedBy(env, primary, secondary, authoritative, heldBack, matches)
  {
    var schedule := MergeSchedule(env, primary, secondary, authoritative, heldBack);
    var title := MergeTitle(primary.title, secondary.title, authoritative, heldBack);
    var description := MergeText(primary.description, secondary.description, authoritative, heldBack);
    var venueName := MergeWhere(primary.venueName, secondary.venueName, authoritative, heldBack, matches);
    var rawAddress := MergeWhere(primary.rawAddress, secondary.rawAddress, authoritative, heldBack, matches);
    var imageUrl := MergeText(primary.imageUrl, secondary.imageUrl, authoritative, heldBack);
    var currency := MergeText(primary.currency, secondary.currency, authoritative, heldBack);
    var organizer := MergeText(primary.organizer, secondary.organizer, authoritative, heldBack);
    var status, reset := MergeStatus(primary, secondary, authoritative, heldBack, schedule.start);
    var place, pointRevised := MergePlace(env, primary, secondary, authoritative, matches);

    var owner := MergeOwner(primary, secondary, authoritative, heldBack);
    var categories := CategoriesV1(env, MergeLists(primary.categories, secondary.categories));
    var performers := MergeLabelList(primary.performers, secondary.performers, authoritative, heldBack);
    var genres := MergeLabelList(primary.genres, secondary.genres, authoritative, heldBack);
    var tags := MergeLists(primary.tags, secondary.tags);
    var price := PreferPrice(primary.price, secondary.price);
    var attendees: nat := Max(primary.attendees, secondary.attendees);
    var isFree := primary.isFree || secondary.isFree;
    if authoritative {
      if secondary.price.Some? { price := secondary.price; }
      attendees, isFree := secondary.attendees, secondary.isFree;
    }
    if heldBack {
      price, attendees, isFree := primary.price, primary.attendees, primary.isFree;
    }
    m := Merge(
      Listing(title, description, schedule.start, schedule.estimated, schedule.end, owner.name, owner.tier,
              owner.id, owner.url, venueName, rawAddress, place.city, place.location, categories, performers,
              genres, tags, price, currency, imageUrl, status, organizer, attendees, place.confidence, isFree),
      reset, pointRevised);
  }

  /** The merge as it is carried out: who has authority, then every key of the working copy. */
  method MergeEventPayloads(env: Env, primary: Listing, secondary: Listing, replayed: bool, revised: bool)
    returns (m: Merge)
    ensures m == Merged(env, primary, secondary, replayed, revised)
  {
    var aliasCanRevise := revised && (secondary.sourceTier < primary.sourceTier || primary.status == "scheduled");
    var authoritative := (SameSourceIdentity(primary, secondary) || aliasCanRevise)
                         && secondary.sourceTier <= primary.sourceTier && !replayed;
    var heldBack := replayed && secondary.sourceTier >= primary.sourceTier;
    var matches := LocationContextMatches(env, primary, secondary);
    m := MergeKeys(env, primary, secondary, authoritative, heldBack, matches);
  }

  /** `_apply_payload`: the stored row after a merge is written back. */
  function Applied(existing: Listing, m: Merge): Listing {
    m.listing.(
      city := existing.city,
      confidence := ClampConfidence(m.listing.confidence),
      status := if m.allowStatusReset || Severity(m.listing.status) > Severity(existing.status)
                then m.listing.status else existing.status)
  }

  /** The stored row read back as a payload: vocabularies are re-applied. */
  function EventToPayload(env: Env, row: Listing): Listing {
    row.(categories := CategoriesV1(env, row.categories), tags := CanonicalVibeTags(env, row.tags))
  }

  /** Does any field a revision may replace differ? */
  predicate RevisionDiffers(a: Listing, b: Listing) {
    || a.title != b.title || a.description != b.description
    || a.startAt != b.startAt || a.endAt != b.endAt
    || a.price != b.price || a.currency != b.currency
    || a.status != b.status || a.isFree != b.isFree || a.attendees != b.attendees
    || a.venueName != b.venueName || a.rawAddress != b.rawAddress
    || a.externalUrl != b.externalUrl || a.imageUrl != b.imageUrl || a.organizer != b.organizer
    || a.performers != b.performers || a.genres != b.genres
  }

  const CONFIDENCE_MARGIN: real := 0.05
  const START_TOLERANCE: int := HOUR_MICROS / 2

  predicate HasNew(incoming: seq<string>, known: seq<string>) {
    exists x :: x in incoming && x !in known
  }

  predicate FillsGap(e: Listing, s: Listing) {
    || (IsMissing(e.description) && !IsMissing(s.description))
    || (IsMissing(e.externalUrl) && !IsMissing(s.externalUrl))
    || (IsMissing(e.venueName) && !IsMissing(s.venueName))
    || (IsMissing(e.rawAddress) && !IsMissing(s.rawAddress))
    || (IsMissing(e.imageUrl) && !IsMissing(s.imageUrl))
    || (e.endAt.None? && s.endAt.Some?)
    || (e.price.None? && s.price.Some?)
    || (IsMissing(e.currency) && !IsMissing(s.currency))
  }

  predicate LongerDescription(env: Env, e: Listing, s: Listing) {
    && e.description.Some? && s.description.Some?
    && |Strip(s.description.value)| > |Strip(e.description.value)| + 30
    && env.textSimilarity(e.description.value, s.description.value) < 95.0
  }

  /** A replay can still improve on a failed geocode or tagging attempt, and nothing else. */
  predicate EnrichmentImproves(env: Env, e: Listing, s: Listing) {
    || (LocationContextMatches(env, e, s) && s.confidence > e.confidence + CONFIDENCE_MARGIN)
    || HasNew(s.tags, e.tags)
    || HasNew(s.categories, e.categories)
  }

  predicate Significant(env: Env, row: Listing, s: Listing, replayed: bool, revised: bool) {
    var e := EventToPayload(env, row);
    if replayed then EnrichmentImproves(env, e, s)
    else
      || (if SameSourceIdentity(e, s) || revised then
            var m := Merged(env, e, s, replayed, revised);
            RevisionDiffers(m.listing, e) || m.pointRevised
          else Severity(s.status) > Severity(e.status))
      || FillsGap(e, s)
      || s.confidence > e.confidence + CONFIDENCE_MARGIN
      || HasNew(s.performers, e.performers) || HasNew(s.genres, e.genres)
      || HasNew(s.categories, e.categories) || HasNew(s.tags, e.tags)
      || LongerDescription(env, e, s)
      || (e.estimated && !s.estimated)
      || (!e.estimated && !s.estimated && Abs(s.startAt - e.startAt) > START_TOLERANCE)
  }

  /** The row after a significant observation is merged and written back. */
  function Updated(env: Env, row: Listing, s: Listing, replayed: bool, revised: bool): Listing {
    Applied(row, Merged(env, EventToPayload(env, row), s, replayed, revised))
  }

  /**
   Severity drops only on authority: the observation is not a replay, is of no
   worse tier, and is either the row's own owner or a changed alias of strictly
   better tier.
   */
  lemma {:induction false} StatusDropNeedsAuthority(env: Env, row: Listing, s: Listing, replayed: bool, revised: bool)
    requires Severity(Updated(env, row, s, replayed, revised).status) < Severity(row.status)
    ensures !replayed && s.sourceTier <= row.sourceTier
    ensures SameSourceIdentity(row, s) || (revised && s.sourceTier < row.sourceTier)
  {
    var e := EventToPayload(env, row);
    var m := Merged(env, e, s, replayed, revised);
    assert m.allowStatusReset;
    assert row.status != "scheduled";
  }

  /** A past event leaves "past" only together with a new start, and only on authority. */
  lemma {:induction false} PastLeftOnlyWithNewStart(env: Env, row: Listing, s: Listing, replayed: bool, revised: bool)
    requires row.status == "past" && Updated(env, row, s, replayed, revised).status != "past"
    ensures Updated(env, row, s, replayed, revised).startAt != row.startAt
    ensures Authoritative(row, s, replayed, revised)
  {
    var m := Merged(env, EventToPayload(env, row), s, replayed, revised);
    assert Severity(row.status) == 3;
    assert m.allowStatusReset;
  }

  /** A published start turns into an estimate exactly through an authoritative move to another local day. */
  lemma {:induction false} EstimateReplacesPublishedTime(env: Env, row: Listing, s: Listing, replayed: bool,
                                                         revised: bool)
    requires !row.estimated
    ensures Updated(env, row, s, replayed, revised).estimated <==>
            && Authoritative(row, s, replayed, revised)
            && s.estimated && env.day(row.startAt) != env.day(s.startAt)
    ensures Updated(env, row, s, replayed, revised).estimated ==>
              Updated(env, row, s, replayed, revised).startAt == s.startAt
  {
    var e := EventToPayload(env, row);
    assert Authoritative(e, s, replayed, revised) == Authoritative(row, s, replayed, revised);
    assert !HeldBack(e, s, replayed) || !Authoritative(e, s, replayed, revised);
  }

  /** The coordinate and its confidence are always taken from one side, never mixed. */
  lemma {:induction false} CoordinateTravelsWithConfidence(env: Env, row: Listing, s: Listing, replayed: bool,
                                                           revised: bool)
    requires 0.0 <= row.confidence <= 1.0 && 0.0 <= s.confidence <= 1.0
    ensures var after := Updated(env, row, s, replayed, revised);
            || (after.location == row.location && after.confidence == row.confidence)
            || (after.location == s.location && after.confidence == s.confidence)
  {
    var e := EventToPayload(env, row);
    assert PlaceOf(e) == PlaceOf(row);
  }

  /** Name, id and tier of the owner travel together, and the tier never gets worse. */
  lemma {:induction false} OwnerTravelsWithTier(env: Env, row: Listing, s: Listing, replayed: bool, revised: bool)
    ensures var after := Updated(env, row, s, replayed, revised);
            && after.sourceTier <= row.sourceTier
            && (|| (after.sourceName == row.sourceName && after.sourceEventId == row.sourceEventId
                    && after.sourceTier == row.sourceTier)
                || (after.sourceName == s.sourceName && after.sourceEventId == s.sourceEventId
                    && after.sourceTier == s.sourceTier))
  {
    var e := EventToPayload(env, row);
    assert e.sourceTier == row.sourceTier;
  }

  /** A description, venue, address, image, organizer, price or currency once known stays known. */
  lemma {:induction false} NothingPublishedIsErased(env: Env, row: Listing, s: Listing, replayed: bool, revised: bool)
    ensures var after := Updated(env, row, s, replayed, revised);
            && (IsMissing(after.description) ==> IsMissing(row.description))
            && (IsMissing(after.venueName) ==> IsMissing(row.venueName))
            && (IsMissing(after.rawAddress) ==> IsMissing(row.rawAddress))
            && (IsMissing(after.imageUrl) ==> IsMissing(row.imageUrl))
            && (IsMissing(after.organizer) ==> IsMissing(row.organizer))
            && (after.price.None? ==> row.price.None?)
            && (IsMissing(after.currency) ==> IsMissing(row.currency))
  {
  }

  /**
   The link is the exception: it follows the winning source, so a published link
   is lost exactly when an observation without one is of better tier or has
   authority, and is not held back.
   */
  lemma {:induction false} LinkIsErasedExactly(env: Env, row: Listing, s: Listing, replayed: bool, revised: bool)
    requires !IsMissing(row.externalUrl)
    ensures IsMissing(Updated(env, row, s, replayed, revised).externalUrl) <==>
            && IsMissing(s.externalUrl) && !HeldBack(row, s, replayed)
            && (s.sourceTier < row.sourceTier || Authoritative(row, s, replayed, revised))
  {
    var e := EventToPayload(env, row);
    assert e.sourceTier == row.sourceTier && e.externalUrl == row.externalUrl;
    assert Authoritative(e, s, replayed, revised) == Authoritative(row, s, replayed, revised);
  }

  /** For instance, the same listing from a better tier, without the link. */
  lemma {:induction false} BetterTierErasesLink(env: Env, row: Listing)
    requires row.sourceTier == 3 && row.externalUrl == Some("https://example.org/show")
    ensures IsMissing(Updated(env, row, row.(sourceTier := 1, externalUrl := None), false, false).externalUrl)
  {
    assert Strip("https://example.org/show") != "" by {
      LStripShape("https://example.org/show");
      RStripShape("https://example.org/show");
    }
    LinkIsErasedExactly(env, row, row.(sourceTier := 1, externalUrl := None), false, false);
  }
}
