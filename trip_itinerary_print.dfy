/** The printable itinerary (frontend/src/components/TripItenaryPrint.tsx): the
    driving-route request built from the selected trip's places, and the totals
    shown for the route the directions service returns. */
module TripItineraryPrint {
  import opened Common
  import opened Domain

  datatype LatLng = LatLng(lat: real, lng: real)

  /** One entry of `waypoints`. */
  datatype Waypoint = Waypoint(location: LatLng, stopover: bool)

  /** The request handed to `directionsService.route` (driving, with waypoint
      optimisation). */
  datatype RouteRequest = RouteRequest(origin: LatLng, destination: LatLng, waypoints: seq<Waypoint>)

  function At(l: Location): LatLng {
    LatLng(l.lat, l.lng)
  }

  /** `slice(1, -1).map(...)` on the places. */
  function Waypoints(places: seq<Location>): (w: seq<Waypoint>)
    requires |places| >= 2
    ensures |w| == |places| - 2
    ensures forall k :: 0 <= k < |w| ==> w[k] == Waypoint(At(places[k + 1]), true)
  {
    seq(|places| - 2, k requires 0 <= k < |places| - 2 => Waypoint(At(places[k + 1]), true))
  }

  /** `calculateDirections`: a selected trip with fewer than two places makes
      no request, and so does no selected trip (its places are then
      undefined); otherwise the route runs from the first place to the last
      through the others, in order. */
  function RequestFor(trip: Option<Trip>): (r: Option<RouteRequest>)
    ensures r.Some? <==> trip.Some? && |trip.value.locations| >= 2
    ensures r.Some? ==> var ps := trip.value.locations;
                        r.value.origin == At(ps[0]) && r.value.destination == At(ps[|ps| - 1])
                        && r.value.waypoints == Waypoints(ps)
  {
    if trip.None? || |trip.value.locations| < 2 then None
    else
      var ps := trip.value.locations;
      Some(RouteRequest(At(ps[0]), At(ps[|ps| - 1]), Waypoints(ps)))
  }

  /** The places of the trip, recovered from its request: origin, the
      waypoints in order, destination. */
  lemma RequestVisitsEveryPlace(trip: Trip)
    requires |trip.locations| >= 2
    ensures var r := RequestFor(Some(trip)).value;
            [r.origin] + seq(|r.waypoints|, k requires 0 <= k < |r.waypoints| => r.waypoints[k].location) + [r.destination]
            == seq(|trip.locations|, k requires 0 <= k < |trip.locations| => At(trip.locations[k]))
  {
  }

  /** One route leg; `duration.value` is in seconds and `distance.value` in
      metres, either possibly missing. */
  datatype Leg = Leg(durationSeconds: Option<nat>, distanceMeters: Option<nat>)

  function ValueOr0(v: Option<nat>): nat {
    if v.Some? then v.value else 0
  }

  /** `legs.reduce((total, leg) => total + (leg.duration?.value || 0), 0)` */
  function TotalSeconds(legs: seq<Leg>): nat
    decreases |legs|
  {
    if legs == [] then 0 else TotalSeconds(legs[..|legs| - 1]) + ValueOr0(legs[|legs| - 1].durationSeconds)
  }

  /** The same reduction over distances. */
  function TotalMeters(legs: seq<Leg>): nat
    decreases |legs|
  {
    if legs == [] then 0 else TotalMeters(legs[..|legs| - 1]) + ValueOr0(legs[|legs| - 1].distanceMeters)
  }

  /** The totals add up leg lists joined end to end. */
  lemma {:induction false} TotalsConcat(a: seq<Leg>, b: seq<Leg>)
    ensures TotalSeconds(a + b) == TotalSeconds(a) + TotalSeconds(b)
    ensures TotalMeters(a + b) == TotalMeters(a) + TotalMeters(b)
    decreases |b|
  {
    if b == [] {
      assert a + b == a;
    } else {
      var b' := b[..|b| - 1];
      assert (a + b)[..|a + b| - 1] == a + b';
      assert (a + b)[|a + b| - 1] == b[|b| - 1];
      TotalsConcat(a, b');
    }
  }

  /** A leg without a duration adds nothing to the time, and one without a
      distance nothing to the distance. */
  lemma MissingValuesAddNothing(legs: seq<Leg>, l: Leg)
    ensures l.durationSeconds.None? ==> TotalSeconds(legs + [l]) == TotalSeconds(legs)
    ensures l.distanceMeters.None? ==> TotalMeters(legs + [l]) == TotalMeters(legs)
  {
    assert (legs + [l])[..|legs|] == legs;
  }

  /** `totalDurationInMinutes` */
  function TotalMinutes(legs: seq<Leg>): real {
    TotalSeconds(legs) as real / 60.0
  }

  /** `Math.floor(totalDurationInMinutes / 60)` */
  function Hours(m: real): (h: int)
    requires m >= 0.0
    ensures h >= 0
    ensures h as real * 60.0 <= m < h as real * 60.0 + 60.0
  {
    (m / 60.0).Floor
  }

  /** `Math.round(totalDurationInMinutes % 60)`: the remainder of a non-negative
      number, rounded half up. */
  function DisplayedMinutes(m: real): (n: int)
    requires m >= 0.0
    ensures 0 <= n <= 60
    ensures -0.5 < (Hours(m) * 60 + n) as real - m <= 0.5
  {
    var h := Hours(m);
    var rest := m - h as real * 60.0;
    var n := (rest + 0.5).Floor;
    assert n as real <= rest + 0.5 < n as real + 1.0;
    assert (h * 60 + n) as real == h as real * 60.0 + n as real;
    n
  }

  /** The duration line can read "0 hours and 60 minutes": a route of 3599
      seconds is 59.98 minutes, under one hour, whose remainder rounds up to 60. */
  lemma SixtyMinutesShown()
    ensures Hours(TotalMinutes([Leg(Some(3599), None)])) == 0
    ensures DisplayedMinutes(TotalMinutes([Leg(Some(3599), None)])) == 60
  {
    var legs := [Leg(Some(3599), None)];
    assert legs[..0] == [];
    assert TotalSeconds(legs) == 3599;
  }

  /** The intended duration: the total rounded to whole minutes first, then
      split into hours and minutes 0..59. */
  function Duration(m: real): (hm: (nat, nat))
    requires m >= 0.0
    ensures hm.1 < 60
    ensures -0.5 < (hm.0 * 60 + hm.1) as real - m <= 0.5
  {
    var total := (m + 0.5).Floor;
    assert total as real <= m + 0.5 < total as real + 1.0;
    assert (total / 60) * 60 + total % 60 == total;
    (total / 60, total % 60)
  }

  /** The intended split agrees with the displayed one whenever the remainder
      does not round up to a full hour. */
  lemma DurationAgreesBelowSixty(m: real)
    requires m >= 0.0
    requires DisplayedMinutes(m) < 60
    ensures Duration(m) == (Hours(m), DisplayedMinutes(m))
  {
    var h := Hours(m);
    var n := DisplayedMinutes(m);
    var total := (m + 0.5).Floor;
    assert total == h * 60 + n;
  }

  /** `totalDistance / 1000`, in kilometres. */
  function TotalKm(legs: seq<Leg>): (km: real)
    ensures km * 1000.0 == TotalMeters(legs) as real
  {
    TotalMeters(legs) as real / 1000.0
  }

  /** The unit word of the duration line for `count` hours or minutes: the
      singular exactly for a count of one, the plural in "s" otherwise. */
  function UnitWord(count: int, unit: string): (w: string)
    ensures w == unit <==> count == 1
    ensures |unit| <= |w| && w[..|unit|] == unit
    ensures count != 1 ==> w[|unit|..] == "s"
  {
    if count == 1 then unit else unit + "s"
  }
}
