/**
 Bracketing one anchor event with a stop before and a stop after it, and
 turning the stops into directions.
 */
module Itinerary {
  import opened Prelude
  import opened Lists
  import opened Sorting

  /** Where a stop is; distances between places are an input. */
  datatype Place = Place(key: int)

  datatype Mode = Walking | Bicycling | Driving | Transit

  /** Times are in seconds. */
  datatype Event = Event(id: int, start: int, estimated: bool, end: Option<int>)

  datatype Kind = BeforeEvent | MainEvent | AfterEvent

  datatype Stop = Stop(kind: Kind, event: int, start: int, estimated: bool, end: Option<int>, buffer: int)

  /** Everything the planner is told: travel mode, distances in miles, places, and the outing an instant belongs to. */
  datatype Trip = Trip(mode: Mode, miles: (Place, Place) -> Option<real>, place: int -> Place, outing: int -> int) {

    ghost predicate Valid() {
      forall a, b :: miles(a, b).Some? ==> miles(a, b).value >= 0.0
    }

    function Speed(): real {
      match mode
      case Walking => 2.5
      case Bicycling => 9.0
      case Driving => 15.0
      case Transit => 10.0
    }

    function Overhead(): real {
      match mode
      case Walking => 2.0
      case Bicycling => 4.0
      case Driving => 8.0
      case Transit => 12.0
    }

    /** `travel_minutes`; half an hour where either place is unknown. */
    function Minutes(from: Place, to: Place): int {
      match miles(from, to)
      case None => 30
      case Some(d) => Ceiling(d * 1.3 / Speed() * 60.0 + Overhead())
    }

    function Buffer(from: Event, to: Event): int {
      60 * Minutes(place(from.id), place(to.id))
    }

    /** A support event that may share an itinerary with the anchor at all. */
    predicate Shares(anchor: Event, e: Event) {
      && e.id != anchor.id && !e.estimated
      && (e.end.None? || e.end.value >= e.start)
      && outing(e.start) == outing(anchor.start)
    }

    predicate Precedes(anchor: Event, e: Event) {
      e.end.Some? && e.end.value >= e.start && e.end.value + Buffer(e, anchor) <= anchor.start
    }

    predicate Follows(anchor: Event, e: Event) {
      anchor.end.Some? && anchor.end.value >= anchor.start && e.start >= anchor.end.value + Buffer(anchor, e)
    }
  }

  function Ceiling(x: real): int {
    -((-x).Floor)
  }

  function ByStart(): (leq: (Event, Event) -> bool)
    ensures Preorder(leq)
  {
    (a: Event, b: Event) => a.start <= b.start
  }

  function SortedSupport(trip: Trip, anchor: Event, support: seq<Event>): seq<Event> {
    Sort(ByStart(), Filter(support, (e: Event) => trip.Shares(anchor, e)))
  }

  function Before(trip: Trip, anchor: Event, support: seq<Event>): Option<Event> {
    var candidates := Filter(SortedSupport(trip, anchor, support), (e: Event) => trip.Precedes(anchor, e));
    if candidates == [] then None else Some(candidates[|candidates| - 1])
  }

  function After(trip: Trip, anchor: Event, support: seq<Event>): Option<Event> {
    var candidates := Filter(SortedSupport(trip, anchor, support), (e: Event) => trip.Follows(anchor, e));
    if candidates == [] then None else Some(candidates[0])
  }

  /** `_build_stop`: an end before the start is dropped. */
  function BuildStop(kind: Kind, e: Event, minutes: int): Stop {
    Stop(kind, e.id, e.start, e.estimated, if e.end.Some? && e.end.value >= e.start then e.end else None, minutes)
  }

  /** `sequence_itinerary` */
  function Sequence(trip: Trip, anchor: Event, support: seq<Event>): seq<Stop> {
    if anchor.estimated then [BuildStop(MainEvent, anchor, 0)] else
      var before, after := Before(trip, anchor, support), After(trip, anchor, support);
      (if before.Some? then [BuildStop(BeforeEvent, before.value, 0)] else [])
      + [BuildStop(MainEvent, anchor, if before.Some? then trip.Buffer(before.value, anchor) / 60 else 0)]
      + (if after.Some? then [BuildStop(AfterEvent, after.value, trip.Buffer(anchor, after.value) / 60)] else [])
  }

  lemma {:induction false} FilterKeepsOrder(s: seq<Event>, p: Event -> bool)
    requires SortedBy(ByStart(), s)
    ensures SortedBy(ByStart(), Filter(s, p))
  {
    if s != [] {
      var rest := s[1..];
      assert forall i :: 0 <= i < |rest| ==> rest[i] == s[i + 1];
      FilterKeepsOrder(rest, p);
      FilterMembers(rest, p);
      forall x | x in rest
        ensures ByStart()(s[0], x)
      {
        var i :| 0 <= i < |rest| && rest[i] == x;
        assert ByStart()(s[0], s[i + 1]);
      }
    }
  }

  /** The candidates for one side of the anchor: sorted by start, and exactly the feasible support events. */
  lemma {:induction false} Candidates(trip: Trip, anchor: Event, support: seq<Event>, feasible: Event -> bool)
    ensures var found := Filter(SortedSupport(trip, anchor, support), feasible);
      && SortedBy(ByStart(), found)
      && forall e :: e in found <==> e in support && trip.Shares(anchor, e) && feasible(e)
  {
    var shares := (e: Event) => trip.Shares(anchor, e);
    FilterMembers(support, shares);
    SortSpec(ByStart(), Filter(support, shares));
    FilterKeepsOrder(SortedSupport(trip, anchor, support), feasible);
    FilterMembers(SortedSupport(trip, anchor, support), feasible);
  }

  /** The stop before is a latest-starting event that still leaves time to reach the anchor; none is missed. */
  lemma {:induction false} BeforeIsLatest(trip: Trip, anchor: Event, support: seq<Event>)
    ensures match Before(trip, anchor, support)
      case None => forall e :: e in support && trip.Shares(anchor, e) ==> !trip.Precedes(anchor, e)
      case Some(b) =>
        && b in support && trip.Shares(anchor, b) && trip.Precedes(anchor, b)
        && forall e :: e in support && trip.Shares(anchor, e) && trip.Precedes(anchor, e) ==> e.start <= b.start
  {
    var feasible := (e: Event) => trip.Precedes(anchor, e);
    var found := Filter(SortedSupport(trip, anchor, support), feasible);
    Candidates(trip, anchor, support, feasible);
    forall e | e in found
      ensures e.start <= found[|found| - 1].start
    {
      var i :| 0 <= i < |found| && found[i] == e;
      assert i < |found| - 1 ==> ByStart()(found[i], found[|found| - 1]);
    }
    assert found != [] ==> found[|found| - 1] in found;
  }

  /** The stop after is an earliest-starting event that can still be reached from the anchor; none is missed. */
  lemma {:induction false} AfterIsEarliest(trip: Trip, anchor: Event, support: seq<Event>)
    ensures match After(trip, anchor, support)
      case None => forall e :: e in support && trip.Shares(anchor, e) ==> !trip.Follows(anchor, e)
      case Some(a) =>
        && a in support && trip.Shares(anchor, a) && trip.Follows(anchor, a)
        && forall e :: e in support && trip.Shares(anchor, e) && trip.Follows(anchor, e) ==> a.start <= e.start
  {
    var feasible := (e: Event) => trip.Follows(anchor, e);
    var found := Filter(SortedSupport(trip, anchor, support), feasible);
    Candidates(trip, anchor, support, feasible);
    forall e | e in found
      ensures found[0].start <= e.start
    {
      var i :| 0 <= i < |found| && found[i] == e;
      assert i > 0 ==> ByStart()(found[0], found[i]);
    }
    assert found != [] ==> found[0] in found;
  }

  /** Every leg takes at least two minutes, whatever the mode. */
  lemma {:induction false} LegsTakeTime(trip: Trip, from: Place, to: Place)
    requires trip.Valid()
    ensures trip.Minutes(from, to) >= 2
  {
    if trip.miles(from, to).Some? {
      var d := trip.miles(from, to).value;
      assert d * 1.3 >= 0.0;
      assert d * 1.3 / trip.Speed() >= 0.0;
      assert d * 1.3 / trip.Speed() * 60.0 + trip.Overhead() >= 2.0;
    }
  }

  /** Stop `next` can be reached in time after `stop`, its travel buffer included. */
  predicate LeavesTime(stop: Stop, next: Stop) {
    stop.end.Some? && stop.start <= stop.end.value && stop.end.value + 60 * next.buffer <= next.start
  }

  /**
   At most three stops, in order and apart by at least their travel time, all of
   one outing, around the anchor; every stop is a different event.
   */
  lemma {:induction false} StopsAreApart(trip: Trip, anchor: Event, support: seq<Event>)
    requires trip.Valid()
    ensures var stops := Sequence(trip, anchor, support);
      && 1 <= |stops| <= 3
      && (exists i :: 0 <= i < |stops| && stops[i].kind == MainEvent && stops[i].event == anchor.id)
      && (forall i :: 0 <= i < |stops| ==> trip.outing(stops[i].start) == trip.outing(anchor.start))
      && (forall i :: 1 <= i < |stops| ==> LeavesTime(stops[i - 1], stops[i]) && stops[i].buffer >= 2)
      && (forall i :: 1 <= i < |stops| ==>
          stops[i].buffer == trip.Minutes(trip.place(stops[i - 1].event), trip.place(stops[i].event)))
      && (forall i, j :: 0 <= i < j < |stops| ==> stops[i].start < stops[j].start)
  {
    BeforeIsLatest(trip, anchor, support);
    AfterIsEarliest(trip, anchor, support);
    var before, after := Before(trip, anchor, support), After(trip, anchor, support);
    if before.Some? { LegsTakeTime(trip, trip.place(before.value.id), trip.place(anchor.id)); }
    if after.Some? { LegsTakeTime(trip, trip.place(anchor.id), trip.place(after.value.id)); }
    var stops := Sequence(trip, anchor, support);
    var main := if before.Some? && !anchor.estimated then 1 else 0;
    assert stops[main].kind == MainEvent && stops[main].event == anchor.id;
  }

  /**
   May stand in an itinerary with the anchor: another event of the same outing, its hour
   known, its end not before its start.
   */
  predicate SameOuting(trip: Trip, anchor: Event, e: Event) {
    && e.id != anchor.id && !e.estimated && trip.outing(e.start) == trip.outing(anchor.start)
    && (e.end.Some? ==> e.start <= e.end.value)
  }

  /** Its end is known and leaves time to reach the anchor. */
  predicate InTimeBefore(trip: Trip, anchor: Event, e: Event) {
    e.end.Some? && e.end.value + 60 * trip.Minutes(trip.place(e.id), trip.place(anchor.id)) <= anchor.start
  }

  /** It starts when the anchor is over and the way from it is covered. */
  predicate InTimeAfter(trip: Trip, anchor: Event, e: Event) {
    && anchor.end.Some? && anchor.start <= anchor.end.value
    && anchor.end.value + 60 * trip.Minutes(trip.place(anchor.id), trip.place(e.id)) <= e.start
  }

  predicate IsStop(stop: Stop, kind: Kind, e: Event) {
    && stop.kind == kind && stop.event == e.id && stop.start == e.start && stop.estimated == e.estimated
    && stop.end == if e.end.Some? && e.end.value < e.start then None else e.end
  }

  ghost predicate BestBefore(trip: Trip, anchor: Event, support: seq<Event>, b: Event) {
    && b in support && SameOuting(trip, anchor, b) && InTimeBefore(trip, anchor, b)
    && forall e :: e in support && SameOuting(trip, anchor, e) && InTimeBefore(trip, anchor, e) ==> e.start <= b.start
  }

  ghost predicate BestAfter(trip: Trip, anchor: Event, support: seq<Event>, a: Event) {
    && a in support && SameOuting(trip, anchor, a) && InTimeAfter(trip, anchor, a)
    && forall e :: e in support && SameOuting(trip, anchor, e) && InTimeAfter(trip, anchor, e) ==> a.start <= e.start
  }

  /**
   Which stops there are: the anchor always; unless its own hour is a guess, a
   latest event before it exactly when some event leaves time to reach it, and an
   earliest one after it exactly when some can still be reached.
   */
  lemma {:induction false} SequenceExactly(trip: Trip, anchor: Event, support: seq<Event>)
    ensures var stops := Sequence(trip, anchor, support);
      var before := !anchor.estimated
                    && exists e :: e in support && SameOuting(trip, anchor, e) && InTimeBefore(trip, anchor, e);
      var after := !anchor.estimated
                   && exists e :: e in support && SameOuting(trip, anchor, e) && InTimeAfter(trip, anchor, e);
      var main := if before then 1 else 0;
      && |stops| == main + (if after then 2 else 1)
      && IsStop(stops[main], MainEvent, anchor)
      && (before ==> exists b :: BestBefore(trip, anchor, support, b) && IsStop(stops[0], BeforeEvent, b))
      && (after ==> exists a :: BestAfter(trip, anchor, support, a) && IsStop(stops[main + 1], AfterEvent, a))
  {
    BeforeIsLatest(trip, anchor, support);
    AfterIsEarliest(trip, anchor, support);
    var before, after := Before(trip, anchor, support), After(trip, anchor, support);
    forall e
      ensures trip.Shares(anchor, e) && trip.Precedes(anchor, e) <==>
              SameOuting(trip, anchor, e) && InTimeBefore(trip, anchor, e)
      ensures trip.Shares(anchor, e) && trip.Follows(anchor, e) <==>
              SameOuting(trip, anchor, e) && InTimeAfter(trip, anchor, e)
    {
    }
    if before.Some? { assert BestBefore(trip, anchor, support, before.value); }
    if after.Some? { assert BestAfter(trip, anchor, support, after.value); }
  }

  /** A leg takes the least whole number of minutes in which, the overhead spent, 1.3 times the distance is covered. */
  lemma {:induction false} MinutesAreLeast(trip: Trip, from: Place, to: Place)
    ensures match trip.miles(from, to)
      case None => trip.Minutes(from, to) == 30
      case Some(d) =>
        var minutes := trip.Minutes(from, to) as real;
        && (minutes - trip.Overhead()) * trip.Speed() >= 60.0 * (d * 1.3)
        && (minutes - 1.0 - trip.Overhead()) * trip.Speed() < 60.0 * (d * 1.3)
  {
    if trip.miles(from, to).Some? {
      var way, speed := trip.miles(from, to).value * 1.3, trip.Speed();
      var exact := way / speed * 60.0 + trip.Overhead();
      assert way / speed * speed == way;
      assert (exact - trip.Overhead()) * speed == 60.0 * way;
      CeilingIsLeast(exact);
      Scaled(trip.Minutes(from, to) as real - trip.Overhead(), exact - trip.Overhead(), speed);
      Scaled(exact - trip.Overhead(), trip.Minutes(from, to) as real - 1.0 - trip.Overhead(), speed);
    }
  }

  lemma {:induction false} CeilingIsLeast(x: real)
    ensures x <= Ceiling(x) as real < x + 1.0
  {
  }

  lemma {:induction false} Scaled(a: real, b: real, speed: real)
    requires speed > 0.0
    ensures a >= b ==> a * speed >= b * speed
    ensures a > b ==> a * speed > b * speed
  {
  }

  /** A stop with its directions. */
  datatype Portable = Portable(stop: Stop, minutes: int, leaveBy: Option<int>, warning: bool)

  /** When the previous stop is over; an estimated start says nothing. */
  function Boundary(stop: Stop): Option<int> {
    if stop.end.Some? then stop.end else if stop.estimated then None else Some(stop.start)
  }

  function PortableOf(stop: Stop, minutes: int, previous: Option<Stop>): Portable {
    var leaveBy := if minutes != 0 && !stop.estimated then Some(stop.start - 60 * minutes) else None;
    var boundary := if previous.Some? then Boundary(previous.value) else None;
    Portable(stop, minutes, leaveBy, leaveBy.Some? && boundary.Some? && boundary.value > leaveBy.value)
  }

  /** What stop `i` should say: its leg starts where the stop before it is, or at the origin. */
  function PortableAt(trip: Trip, origin: Option<Place>, stops: seq<Stop>, i: nat): Portable
    requires i < |stops|
  {
    if i > 0 then
      PortableOf(stops[i], trip.Minutes(trip.place(stops[i - 1].event), trip.place(stops[i].event)), Some(stops[i - 1]))
    else if origin.Some? then
      PortableOf(stops[i], trip.Minutes(origin.value, trip.place(stops[i].event)), None)
    else
      PortableOf(stops[i], 0, None)
  }

  /** `_portable_stops` */
  method PortableStops(trip: Trip, origin: Option<Place>, stops: seq<Stop>) returns (enriched: seq<Portable>)
    ensures |enriched| == |stops|
    ensures forall i :: 0 <= i < |stops| ==> enriched[i] == PortableAt(trip, origin, stops, i)
  {
    enriched := [];
    var previous := origin;
    var previousStop: Option<Stop> := None;
    for i := 0 to |stops|
      invariant |enriched| == i
      invariant forall k :: 0 <= k < i ==> enriched[k] == PortableAt(trip, origin, stops, k)
      invariant i == 0 ==> previous == origin && previousStop == None
      invariant i > 0 ==> previous == Some(trip.place(stops[i - 1].event)) && previousStop == Some(stops[i - 1])
    {
      var stop := stops[i];
      var location := trip.place(stop.event);
      var minutes := 0;
      if previous.Some? {
        minutes := trip.Minutes(previous.value, location);
      }
      enriched := enriched + [PortableOf(stop, minutes, previousStop)];
      previous := Some(location);
      previousStop := Some(stop);
    }
  }

  /**
   Of any stops, a leg carries a warning exactly when whoever stays to the end of the
   stop before, or to its start where only that is known, is late for this one.
   */
  lemma {:induction false} WarnsExactly(trip: Trip, origin: Option<Place>, stops: seq<Stop>, i: nat)
    requires i < |stops|
    ensures var leg := PortableAt(trip, origin, stops, i);
      leg.warning <==>
        && i > 0 && !stops[i].estimated && leg.minutes != 0
        && (stops[i - 1].end.Some? || !stops[i - 1].estimated)
        && (if stops[i - 1].end.Some? then stops[i - 1].end.value else stops[i - 1].start) + 60 * leg.minutes
           > stops[i].start
    ensures i > 0 ==> PortableAt(trip, origin, stops, i).minutes ==
                      trip.Minutes(trip.place(stops[i - 1].event), trip.place(stops[i].event))
  {
  }

  /** No leg of a sequenced itinerary ever carries a timing warning, whatever the mode and the origin. */
  lemma {:induction false} NeverWarns(trip: Trip, origin: Option<Place>, anchor: Event, support: seq<Event>, i: nat)
    requires trip.Valid() && i < |Sequence(trip, anchor, support)|
    ensures !PortableAt(trip, origin, Sequence(trip, anchor, support), i).warning
  {
    StopsAreApart(trip, anchor, support);
    var stops := Sequence(trip, anchor, support);
    assert i > 0 ==> LeavesTime(stops[i - 1], stops[i]);
  }

  function StopsByStart(): (leq: (Stop, Stop) -> bool)
    ensures Preorder(leq)
  {
    (a: Stop, b: Stop) => a.start <= b.start
  }

  /** With no planner stops to mix in, sorting the stops by start moves none of them. */
  lemma {:induction false} SequenceIsSorted(trip: Trip, anchor: Event, support: seq<Event>)
    requires trip.Valid()
    ensures Sort(StopsByStart(), Sequence(trip, anchor, support)) == Sequence(trip, anchor, support)
  {
    StopsAreApart(trip, anchor, support);
    SortOfSorted(StopsByStart(), Sequence(trip, anchor, support));
  }
}
