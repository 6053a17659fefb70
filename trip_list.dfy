/** The trip carousel (frontend/src/components/TripList.tsx): an index into the
    store's trip list, the two arrow flags, and the selected trip written back
    to the store after every move. Scrolling the page itself is not modelled;
    `hasCard` says whether a scroll container with a first card exists. */
module TripList {
  import opened Common
  import opened Domain
  import opened TripContext

  datatype Direction = Left | Right

  /** `Math.min(i + 1, len - 1)` moving right, `Math.max(i - 1, 0)` moving left. */
  function Step(i: int, len: int, d: Direction): (j: int)
    ensures d == Right ==> j <= i + 1 && j <= len - 1 && (j == i + 1 || j == len - 1)
    ensures d == Left ==> j >= i - 1 && j >= 0 && (j == i - 1 || j == 0)
  {
    match d
    case Right => if i + 1 < len - 1 then i + 1 else len - 1
    case Left => if i - 1 > 0 then i - 1 else 0
  }

  /** `trips[j]`, which is `undefined` outside the list. */
  function TripAt(ts: seq<Trip>, j: int): (r: Option<Trip>)
    ensures r.Some? <==> 0 <= j < |ts|
    ensures r.Some? ==> r.value == ts[j]
  {
    if 0 <= j < |ts| then Some(ts[j]) else None
  }

  /** A move from an index inside a non-empty list stays inside it, and there is
      no wrap-around at either end. */
  lemma StepStaysInRange(i: int, len: int, d: Direction)
    requires 0 <= i < len
    ensures 0 <= Step(i, len, d) < len
    ensures d == Right && i == len - 1 ==> Step(i, len, d) == i
    ensures d == Left && i == 0 ==> Step(i, len, d) == 0
  {
  }

  /** `k` moves from index `i`. */
  function Moves(i: int, len: int, d: Direction, k: nat): int
    decreases k
  {
    if k == 0 then i else Step(Moves(i, len, d, k - 1), len, d)
  }

  /** From the first card, `k` moves right reach card `min(k, len - 1)`. */
  lemma {:induction false} RightMovesFromStart(len: int, k: nat)
    requires len >= 1
    ensures Moves(0, len, Right, k) == (if k < len - 1 then k else len - 1)
    decreases k
  {
    if k > 0 {
      RightMovesFromStart(len, k - 1);
    }
  }

  /** From any starting card, enough moves right reach the last card, and
      further moves stay there. */
  lemma {:induction false} RightMovesReachEnd(i: int, len: int, k: nat)
    requires 0 <= i < len
    requires k >= len - 1 - i
    ensures Moves(i, len, Right, k) == len - 1
    decreases k
  {
    if k > 0 {
      if k - 1 >= len - 1 - i {
        RightMovesReachEnd(i, len, k - 1);
      } else {
        RightMovesApproach(i, len, k - 1);
      }
    }
  }

  /** Fewer moves right than cards remaining advance one card per move. */
  lemma {:induction false} RightMovesApproach(i: int, len: int, k: nat)
    requires 0 <= i && i + k <= len - 1
    ensures Moves(i, len, Right, k) == i + k
    decreases k
  {
    if k > 0 {
      RightMovesApproach(i, len, k - 1);
    }
  }

  /** The store's list can shrink under a stale index (a refresh after a delete
      does not reset it); a move left from such an index can then select
      nothing. */
  lemma StaleIndexMovesOutsideList(ts: seq<Trip>)
    requires |ts| == 1
    ensures Step(3, |ts|, Left) == 2 && TripAt(ts, Step(3, |ts|, Left)) == None
  {
  }

  /** The component's own state cells. */
  class Carousel {
    var selectedTripId: int
    var showLeftButton: bool
    var showRightButton: bool

    /** Index 0 and both arrows hidden. */
    constructor ()
      ensures selectedTripId == 0 && !showLeftButton && !showRightButton
    {
      selectedTripId := 0;
      showLeftButton := false;
      showRightButton := false;
    }

    /** The effect on `trips`: the right arrow is switched on once there is more
        than one trip, and never switched off here. */
    method TripsChanged(trips: seq<Trip>)
      modifies this
      ensures showRightButton == (old(showRightButton) || |trips| > 1)
      ensures selectedTripId == old(selectedTripId) && showLeftButton == old(showLeftButton)
    {
      if |trips| > 1 {
        showRightButton := true;
      }
    }

    /** `scrollToCard`: without a container and first card nothing changes;
        otherwise the index moves, the arrows follow it and the store selects
        the trip at the new index. */
    method ScrollToCard(d: Direction, hasCard: bool, store: TripStore)
      modifies this, store
      ensures !hasCard ==> selectedTripId == old(selectedTripId) && showLeftButton == old(showLeftButton)
                           && showRightButton == old(showRightButton) && store.selectedTrip == old(store.selectedTrip)
      ensures hasCard ==> selectedTripId == Step(old(selectedTripId), |store.trips|, d)
                          && showLeftButton == (selectedTripId > 0)
                          && showRightButton == (selectedTripId < |store.trips| - 1)
                          && store.selectedTrip == TripAt(store.trips, selectedTripId)
      ensures store.trips == old(store.trips) && store.isLoading == old(store.isLoading)
    {
      if hasCard {
        var trips := store.trips;
        var newTripId := if d == Right then (if selectedTripId + 1 < |trips| - 1 then selectedTripId + 1 else |trips| - 1)
                         else (if selectedTripId - 1 > 0 then selectedTripId - 1 else 0);
        selectedTripId := newTripId;
        showLeftButton := newTripId > 0;
        showRightButton := newTripId < |trips| - 1;
        store.SetSelectedTrip(TripAt(trips, newTripId));
      }
    }
  }
}
