/** The itinerary editor of the trip map (frontend/src/components/GoogleMap.tsx):
    the list of places shown for the selected trip, the pin colour of the
    signed-in user, and the flag that offers saving. Geocoding, the map widget
    and the map centre are outside the model. */
module GoogleMap {
  import opened Common
  import opened Domain

  /** `blueGradient`, the ten pin colours. */
  const BlueGradient: seq<string> := ["#0A2342", "#143D59", "#1F5986", "#2A76B3", "#348CD3",
                                      "#4DA3E6", "#67BBF9", "#89CEFF", "#A4DBFF", "#C0E8FF"]

  /** `Math.floor(Math.random() * blueGradient.length)` is an index in 0..9;
      the model takes that index as a parameter. */
  predicate IsPick(pick: int) {
    0 <= pick < |BlueGradient|
  }

  /** The reverse-geocoding call's outcome: the formatted addresses of its
      results, or a failure of the request or of reading its answer. */
  datatype GeocodeAnswer = Geocoded(addresses: seq<string>) | GeocodeFailed

  const UnknownLocation := "Unknown location"

  /** `getLocationName` (frontend/src/lib/common-utils.ts): the first result's
      address, and the fixed fallback for no result or any failure, which it
      catches; it never rejects. */
  function LocationName(answer: GeocodeAnswer): (name: string)
    ensures answer.Geocoded? && answer.addresses != [] ==> name == answer.addresses[0]
    ensures answer.GeocodeFailed? || answer.addresses == [] ==> name == UnknownLocation
  {
    if answer.Geocoded? && |answer.addresses| > 0 then answer.addresses[0] else UnknownLocation
  }

  /** `locations.find((loc) => loc.userId === user?.id)`: the first place of the
      signed-in user (none without a user). */
  function FirstOwnPlace(places: seq<Location>, user: Option<string>): (r: Option<nat>)
    ensures r.Some? ==> r.value < |places| && user.Some? && places[r.value].userId == user.value
                        && forall k :: 0 <= k < r.value ==> places[k].userId != user.value
    ensures r.None? ==> forall k :: 0 <= k < |places| ==> user.None? || places[k].userId != user.value
  {
    if places == [] || user.None? then None
    else if places[0].userId == user.value then Some(0)
    else
      var r := FirstOwnPlace(places[1..], user);
      if r.Some? then Some(r.value + 1) else None
  }

  /** The pin colour chosen when the selected trip changes: the colour of the
      user's first place when it is a non-empty string, otherwise the palette
      entry at `pick`. */
  function PinColorFor(trip: Option<Trip>, user: Option<string>, pick: int): (c: string)
    requires IsPick(pick)
    ensures trip.Some? && FirstOwnPlace(trip.value.locations, user).Some?
            && trip.value.locations[FirstOwnPlace(trip.value.locations, user).value].color != ""
            ==> c == trip.value.locations[FirstOwnPlace(trip.value.locations, user).value].color
    ensures c == BlueGradient[pick] || (trip.Some? && exists k :: 0 <= k < |trip.value.locations| && c == trip.value.locations[k].color)
    ensures c != ""
  {
    if trip.None? then BlueGradient[pick]
    else
      var first := FirstOwnPlace(trip.value.locations, user);
      if first.Some? && trip.value.locations[first.value].color != "" then trip.value.locations[first.value].color
      else BlueGradient[pick]
  }

  /** Once the user has a coloured place, places appended after it never change
      the colour picked for that user. */
  lemma {:induction false} OwnColourSurvivesAppends(places: seq<Location>, more: seq<Location>, user: Option<string>)
    requires FirstOwnPlace(places, user).Some?
    ensures FirstOwnPlace(places + more, user) == FirstOwnPlace(places, user)
  {
    if places[0].userId != user.value {
      assert (places + more)[1..] == places[1..] + more;
      OwnColourSurvivesAppends(places[1..], more, user);
    }
  }

  /** A user whose first place on a trip was added with pin colour `c` gets `c`
      back the next time the trip is selected, whatever the new random pick. */
  lemma FirstAddedColourIsReused(t: Trip, user: string, p: Location, pick: int)
    requires IsPick(pick)
    requires FirstOwnPlace(t.locations, Some(user)).None?
    requires p.userId == user && p.color != ""
    ensures PinColorFor(Some(t.(locations := t.locations + [p])), Some(user), pick) == p.color
  {
    var s := t.locations + [p];
    assert s[|t.locations|].userId == user;
    assert FirstOwnPlace(s, Some(user)) == Some(|t.locations|);
  }

  /** The remove control is rendered only for places of the signed-in user. */
  predicate RemoveOffered(user: Option<string>, place: Location) {
    user.Some? && user.value == place.userId
  }

  /** Removing the place just added gives back the list before the add. */
  lemma RemoveUndoesAdd(places: seq<Location>, p: Location)
    ensures RemoveAt(places + [p], |places|) == places
  {
    assert (places + [p])[..|places|] == places;
  }

  class ItineraryEditor {
    var listOfPlaces: seq<Location>
    var pinColor: string
    var saveBtn: bool

    /** The initial state, with the palette entry the first random draw picks. */
    constructor (pick: int)
      requires IsPick(pick)
      ensures listOfPlaces == [] && pinColor == BlueGradient[pick] && !saveBtn
    {
      listOfPlaces := [];
      pinColor := BlueGradient[pick];
      saveBtn := false;
    }

    /** The effect run when the selected trip changes. */
    method TripSelected(trip: Option<Trip>, user: Option<string>, pick: int)
      requires IsPick(pick)
      modifies this
      ensures listOfPlaces == (if trip.Some? then trip.value.locations else [])
      ensures pinColor == PinColorFor(trip, user, pick)
      ensures saveBtn == old(saveBtn)
    {
      if trip.Some? {
        listOfPlaces := trip.value.locations;
      } else {
        listOfPlaces := [];
      }
      pinColor := PinColorFor(trip, user, pick);
    }

    /** `addMarker`: `picked` is the chosen place's coordinates, `None` when
        there is no autocomplete or the place has no geometry; `geocode` is the
        reverse-geocoding answer. A failed lookup still adds the place, under
        the fallback name. */
    method AddMarker(picked: Option<(real, real)>, geocode: GeocodeAnswer, user: Option<string>)
      modifies this
      ensures picked.None? ==> listOfPlaces == old(listOfPlaces) && saveBtn == old(saveBtn)
      ensures picked.Some? ==>
                listOfPlaces == old(listOfPlaces) + [Location(picked.value.0, picked.value.1, LocationName(geocode), ViewerId(user), old(pinColor))]
                && saveBtn
      ensures pinColor == old(pinColor)
    {
      if picked.None? {
        return;
      }
      var (lat, lng) := picked.value;
      var locationName := LocationName(geocode);
      listOfPlaces := listOfPlaces + [Location(lat, lng, locationName, ViewerId(user), pinColor)];
      saveBtn := true;
    }

    /** The remove control of the entry at `index`. */
    method Remove(index: int, user: Option<string>)
      requires 0 <= index < |listOfPlaces|
      requires RemoveOffered(user, listOfPlaces[index])
      modifies this
      ensures listOfPlaces == RemoveAt(old(listOfPlaces), index)
      ensures saveBtn
      ensures pinColor == old(pinColor)
    {
      listOfPlaces := RemoveAt(listOfPlaces, index);
      saveBtn := true;
    }

    /** `handleSaveItenary`: with no selected trip nothing is written; otherwise
        the whole list is written for the trip's id, and only a completed write
        clears the flag. */
    method Save(selectedTrip: Option<Trip>, outcome: Completion) returns (written: Option<(string, seq<Location>)>)
      modifies this
      ensures selectedTrip.None? ==> written.None? && saveBtn == old(saveBtn)
      ensures selectedTrip.Some? ==> written == Some((selectedTrip.value.id, listOfPlaces))
                                     && saveBtn == (old(saveBtn) && outcome.Thrown?)
      ensures listOfPlaces == old(listOfPlaces) && pinColor == old(pinColor)
    {
      if selectedTrip.None? {
        return None;
      }
      written := Some((selectedTrip.value.id, listOfPlaces));
      if outcome.Completed? {
        saveBtn := false;
      }
    }
  }
}
