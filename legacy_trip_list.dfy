/** The older trip carousel (src/components/TripList.tsx). It keeps its own
    copy of the owner's trips, reports the selected trip to its parent through
    `onTripSelect`, and deletes trips itself. The move rule is the one of the
    newer carousel. */
module LegacyTripList {
  import opened Common
  import opened Domain
  import TripList

  /** What a handler passed to `onTripSelect`, if it called it. */
  datatype Selection = NoCall | Selected(trip: Option<Trip>)

  /** The outcome of the remote delete: `{ error }` empty, set, or thrown. */
  datatype DeleteOutcome = Deleted | DeleteFailed | DeleteThrew

  /** `trips.filter(t => t.id !== tripId)` */
  function WithoutTrip(ts: seq<Trip>, tripId: string): (r: seq<Trip>)
    ensures forall k :: 0 <= k < |r| ==> r[k].id != tripId
    ensures forall t :: t in r <==> t in ts && t.id != tripId
  {
    Filter(ts, (t: Trip) => t.id != tripId)
  }

  /** Deleting keeps the other trips in their order: removing an id from a
      concatenation removes it from each part. */
  lemma WithoutTripConcat(a: seq<Trip>, b: seq<Trip>, tripId: string)
    ensures WithoutTrip(a + b, tripId) == WithoutTrip(a, tripId) + WithoutTrip(b, tripId)
  {
    FilterConcat(a, b, (t: Trip) => t.id != tripId);
  }

  /** Deleting an id that is not listed changes nothing, and deleting twice is
      deleting once. */
  lemma WithoutTripIdempotent(ts: seq<Trip>, tripId: string)
    ensures WithoutTrip(WithoutTrip(ts, tripId), tripId) == WithoutTrip(ts, tripId)
    ensures (forall k :: 0 <= k < |ts| ==> ts[k].id != tripId) ==> WithoutTrip(ts, tripId) == ts
  {
    var r := WithoutTrip(ts, tripId);
    FilterKeepsAll(r, (t: Trip) => t.id != tripId);
    if forall k :: 0 <= k < |ts| ==> ts[k].id != tripId {
      FilterKeepsAll(ts, (t: Trip) => t.id != tripId);
    }
  }

  /** The component's state cells. */
  class OwnerCarousel {
    var trips: seq<Trip>
    var loading: bool
    var error: Option<string>
    var showLeftButton: bool
    var showRightButton: bool
    var selectedTripId: int

    /** No trips, loading, no error, index 0, right arrow shown. */
    constructor ()
      ensures trips == [] && loading && error == None
      ensures selectedTripId == 0 && !showLeftButton && showRightButton
    {
      trips := [];
      loading := true;
      error := None;
      showLeftButton := false;
      showRightButton := true;
      selectedTripId := 0;
    }

    /** `loadTrips`: without a user loading just ends; a successful read
        replaces the list and selects its first trip, if any; a thrown read
        records the error. Loading ends in every case. Neither branch clears an
        earlier error. */
    method LoadTrips(user: Option<string>, fetched: Fetch<seq<Trip>>) returns (sel: Selection)
      modifies this
      ensures !loading
      ensures user.None? ==> trips == old(trips) && error == old(error) && sel == NoCall
      ensures user.Some? && fetched.Fetched? ==>
                trips == fetched.value && error == old(error)
                && sel == (if fetched.value == [] then NoCall else Selected(Some(fetched.value[0])))
      ensures user.Some? && fetched.Threw? ==>
                trips == old(trips) && error == Some("Error fetching trips") && sel == NoCall
      ensures selectedTripId == old(selectedTripId)
      ensures showLeftButton == old(showLeftButton) && showRightButton == old(showRightButton)
    {
      sel := NoCall;
      if user.None? {
        loading := false;
        return;
      }
      if fetched.Fetched? {
        var fetchedTrips := fetched.value;
        trips := fetchedTrips;
        if |fetchedTrips| > 0 {
          sel := Selected(Some(fetchedTrips[0]));
        }
      } else {
        error := Some("Error fetching trips");
      }
      loading := false;
    }

    /** `scrollToCard`, with the selected trip handed to `onTripSelect`. */
    method ScrollToCard(d: TripList.Direction, hasCard: bool) returns (sel: Selection)
      modifies this
      ensures !hasCard ==> sel == NoCall && selectedTripId == old(selectedTripId)
                           && showLeftButton == old(showLeftButton) && showRightButton == old(showRightButton)
      ensures hasCard ==> selectedTripId == TripList.Step(old(selectedTripId), |trips|, d)
                          && showLeftButton == (selectedTripId > 0)
                          && showRightButton == (selectedTripId < |trips| - 1)
                          && sel == Selected(TripList.TripAt(trips, selectedTripId))
      ensures trips == old(trips) && loading == old(loading) && error == old(error)
    {
      sel := NoCall;
      if hasCard {
        var newTripId := TripList.Step(selectedTripId, |trips|, d);
        selectedTripId := newTripId;
        showLeftButton := newTripId > 0;
        showRightButton := newTripId < |trips| - 1;
        sel := Selected(TripList.TripAt(trips, newTripId));
      }
    }

    /** `handleDelete`: only a delete that reports no error filters the list. */
    method HandleDelete(tripId: string, outcome: DeleteOutcome)
      modifies this
      ensures outcome == Deleted ==> trips == WithoutTrip(old(trips), tripId)
      ensures outcome != Deleted ==> trips == old(trips)
      ensures loading == old(loading) && error == old(error) && selectedTripId == old(selectedTripId)
      ensures showLeftButton == old(showLeftButton) && showRightButton == old(showRightButton)
    {
      if outcome == Deleted {
        trips := WithoutTrip(trips, tripId);
      }
    }
  }
}
