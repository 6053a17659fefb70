/** The older itinerary editor (src/components/GoogleMap.tsx): places carry only
    coordinates and a name, have no owner, and any of them can be removed. */
module LegacyGoogleMap {
  import opened Common

  /** `{ lat, lng, location }` */
  datatype Place = Place(lat: real, lng: real, location: string)

  /** The `trip` prop, which is untyped: the fields this view reads. */
  datatype TripProp = TripProp(id: string, locations: seq<Place>)

  /** Removing an entry keeps every other entry, in order: entries before it
      stay where they were and entries after it move up by one. */
  lemma RemoveKeepsOthers(places: seq<Place>, index: int, p: Place)
    requires 0 <= index < |places|
    ensures p in RemoveAt(places, index) <==> exists k :: 0 <= k < |places| && k != index && places[k] == p
  {
    var r := RemoveAt(places, index);
    if p in r {
      var j :| 0 <= j < |r| && r[j] == p;
      if j < index {
        assert places[j] == p;
      } else {
        assert places[j + 1] == p;
      }
    }
    if exists k :: 0 <= k < |places| && k != index && places[k] == p {
      var k :| 0 <= k < |places| && k != index && places[k] == p;
      if k < index {
        assert r[k] == p;
      } else {
        assert r[k - 1] == p;
      }
    }
  }

  class LegacyItineraryEditor {
    var listOfPlaces: seq<Place>
    var saveBtn: bool

    constructor ()
      ensures listOfPlaces == [] && !saveBtn
    {
      listOfPlaces := [];
      saveBtn := false;
    }

    /** The effect run when the `trip` prop changes. */
    method TripChanged(trip: Option<TripProp>)
      modifies this
      ensures listOfPlaces == (if trip.Some? then trip.value.locations else [])
      ensures saveBtn == old(saveBtn)
    {
      listOfPlaces := if trip.Some? then trip.value.locations else [];
    }

    /** `addMarker`: `picked` is `None` with no autocomplete or no geometry.
        The older tree's common-utils.ts exports only `formatDate`, so the
        imported `getLocationName` resolves to no export; `name` stands for
        whatever that unresolved call yields, and when it throws the handler
        rejects before any update. */
    method AddMarker(picked: Option<(real, real)>, name: Fetch<string>)
      modifies this
      ensures picked.None? || name.Threw? ==> listOfPlaces == old(listOfPlaces) && saveBtn == old(saveBtn)
      ensures picked.Some? && name.Fetched? ==>
                listOfPlaces == old(listOfPlaces) + [Place(picked.value.0, picked.value.1, name.value)] && saveBtn
    {
      if picked.None? || name.Threw? {
        return;
      }
      listOfPlaces := listOfPlaces + [Place(picked.value.0, picked.value.1, name.value)];
      saveBtn := true;
    }

    /** The remove control, rendered for every entry. */
    method Remove(index: int)
      requires 0 <= index < |listOfPlaces|
      modifies this
      ensures listOfPlaces == RemoveAt(old(listOfPlaces), index)
      ensures saveBtn
    {
      listOfPlaces := RemoveAt(listOfPlaces, index);
      saveBtn := true;
    }

    /** `handleSaveItenary`: without a trip, reading `trip.id` throws inside the
        `try`, so nothing is written and the flag stays; otherwise only a
        completed write clears it. */
    method Save(trip: Option<TripProp>, outcome: Completion) returns (written: Option<(string, seq<Place>)>)
      modifies this
      ensures trip.None? ==> written.None? && saveBtn == old(saveBtn)
      ensures trip.Some? ==> written == Some((trip.value.id, listOfPlaces))
                             && saveBtn == (old(saveBtn) && outcome.Thrown?)
      ensures listOfPlaces == old(listOfPlaces)
    {
      if trip.None? {
        return None;
      }
      written := Some((trip.value.id, listOfPlaces));
      if outcome.Completed? {
        saveBtn := false;
      }
    }
  }
}
