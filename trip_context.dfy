/** The trip store (frontend/src/context/TripContext.tsx): the signed-in user's
    trips, the selected trip and the loading flag. A refresh reads the owned
    trips, then the trips shared with the user, and keeps each shared trip
    whose id is not already owned. */
module TripContext {
  import opened Common
  import opened Domain

  /** `ts.some(t => t.id === id)` */
  predicate HasId(ts: seq<Trip>, id: string) {
    exists k :: 0 <= k < |ts| && ts[k].id == id
  }

  /** No two trips share an id. */
  predicate DistinctIds(ts: seq<Trip>) {
    forall i, j :: 0 <= i < j < |ts| ==> ts[i].id != ts[j].id
  }

  /** `[...owned, ...shared.filter(s => !owned.some(o => o.id === s.id))]` */
  function CombineTrips(owned: seq<Trip>, shared: seq<Trip>): (c: seq<Trip>)
    ensures |owned| <= |c| <= |owned| + |shared|
    ensures c[..|owned|] == owned
    ensures forall t :: t in c[|owned|..] <==> t in shared && !HasId(owned, t.id)
  {
    var others := Filter(shared, (s: Trip) => !HasId(owned, s.id));
    assert (owned + others)[|owned|..] == others;
    owned + others
  }

  /** Every id in the combined list comes from one of the two inputs. */
  lemma CombinedIdsFromInputs(owned: seq<Trip>, shared: seq<Trip>, id: string)
    requires HasId(CombineTrips(owned, shared), id)
    ensures HasId(owned, id) || HasId(shared, id)
  {
    var c := CombineTrips(owned, shared);
    var k :| 0 <= k < |c| && c[k].id == id;
    if k < |owned| {
      assert c[..|owned|][k] == c[k];
    } else {
      assert c[|owned|..][k - |owned|] == c[k];
      assert c[k] in shared;
      var m :| 0 <= m < |shared| && shared[m] == c[k];
    }
  }

  /** Every id of either input occurs in the combined list. */
  lemma InputIdsCombined(owned: seq<Trip>, shared: seq<Trip>, id: string)
    requires HasId(owned, id) || HasId(shared, id)
    ensures HasId(CombineTrips(owned, shared), id)
  {
    var c := CombineTrips(owned, shared);
    if HasId(owned, id) {
      var k :| 0 <= k < |owned| && owned[k].id == id;
      assert c[..|owned|][k] == c[k];
    } else {
      var m :| 0 <= m < |shared| && shared[m].id == id;
      var t := shared[m];
      assert t in c[|owned|..];
      var k :| 0 <= k < |c[|owned|..]| && c[|owned|..][k] == t;
      assert c[|owned| + k] == t;
    }
  }

  /** The combined list holds a trip with a given id exactly when one of the two
      inputs does. */
  lemma CombinedIds(owned: seq<Trip>, shared: seq<Trip>, id: string)
    ensures HasId(CombineTrips(owned, shared), id) <==> HasId(owned, id) || HasId(shared, id)
  {
    if HasId(CombineTrips(owned, shared), id) {
      CombinedIdsFromInputs(owned, shared, id);
    }
    if HasId(owned, id) || HasId(shared, id) {
      InputIdsCombined(owned, shared, id);
    }
  }

  /** No trip taken from the shared list carries the id of an owned trip. */
  lemma SharedPartAvoidsOwnedIds(owned: seq<Trip>, shared: seq<Trip>, k: int)
    requires |owned| <= k < |CombineTrips(owned, shared)|
    ensures !HasId(owned, CombineTrips(owned, shared)[k].id)
  {
    var c := CombineTrips(owned, shared);
    assert c[|owned|..][k - |owned|] == c[k];
  }

  lemma {:induction false} FilterDistinctIds(s: seq<Trip>, p: Trip -> bool)
    requires DistinctIds(s)
    ensures DistinctIds(Filter(s, p))
  {
    if s != [] {
      FilterDistinctIds(s[1..], p);
      var rest := Filter(s[1..], p);
      if p(s[0]) {
        var f := Filter(s, p);
        assert f == [s[0]] + rest;
        forall j | 0 < j < |f| ensures f[0].id != f[j].id {
          assert f[j] in s[1..];
          var m :| 0 <= m < |s[1..]| && s[1..][m] == f[j];
          assert s[m + 1] == f[j];
        }
      }
    }
  }

  /** A refresh never lists two trips with the same id, provided each source
      list has distinct ids. */
  lemma CombinedDistinctIds(owned: seq<Trip>, shared: seq<Trip>)
    requires DistinctIds(owned) && DistinctIds(shared)
    ensures DistinctIds(CombineTrips(owned, shared))
  {
    var c := CombineTrips(owned, shared);
    var others := c[|owned|..];
    assert others == Filter(shared, (s: Trip) => !HasId(owned, s.id));
    FilterDistinctIds(shared, (s: Trip) => !HasId(owned, s.id));
    forall i, j | 0 <= i < j < |c| ensures c[i].id != c[j].id {
      if j < |owned| {
        assert c[..|owned|][i] == c[i] && c[..|owned|][j] == c[j];
      } else if i < |owned| {
        assert c[..|owned|][i] == c[i];
        SharedPartAvoidsOwnedIds(owned, shared, j);
      } else {
        assert others[i - |owned|] == c[i] && others[j - |owned|] == c[j];
      }
    }
  }

  /** Sharing a trip with its owner adds no second copy: when every shared trip
      is also owned, the refresh lists the owned trips alone. */
  lemma SharedOwnTripsAddNothing(owned: seq<Trip>, shared: seq<Trip>)
    requires forall k :: 0 <= k < |shared| ==> HasId(owned, shared[k].id)
    ensures CombineTrips(owned, shared) == owned
  {
    FilterKeepsNone(shared, (s: Trip) => !HasId(owned, s.id));
  }

  /** With no overlap in ids the refresh lists both lists in full. */
  lemma DisjointListsConcatenate(owned: seq<Trip>, shared: seq<Trip>)
    requires forall k :: 0 <= k < |shared| ==> !HasId(owned, shared[k].id)
    ensures CombineTrips(owned, shared) == owned + shared
  {
    FilterKeepsAll(shared, (s: Trip) => !HasId(owned, s.id));
  }

  /** The first trip of a list, or nothing for an empty list. */
  function FirstTrip(ts: seq<Trip>): (r: Option<Trip>)
    ensures r.None? <==> ts == []
    ensures r.Some? ==> r.value == ts[0]
  {
    if |ts| > 0 then Some(ts[0]) else None
  }

  /** The context's state cells. */
  class TripStore {
    var trips: seq<Trip>
    var selectedTrip: Option<Trip>
    var isLoading: bool

    constructor ()
      ensures trips == [] && selectedTrip == None && !isLoading
    {
      trips := [];
      selectedTrip := None;
      isLoading := false;
    }

    /** `getAllTrips`. The two reads are awaited in turn; nothing catches a
        thrown read, so it leaves `isLoading` set and the lists as they were. */
    method GetAllTrips(user: Option<string>, owned: Fetch<seq<Trip>>, shared: Fetch<seq<Trip>>)
      modifies this
      ensures user.None? ==> trips == old(trips) && selectedTrip == old(selectedTrip) && isLoading == old(isLoading)
      ensures user.Some? && (owned.Threw? || shared.Threw?)
              ==> trips == old(trips) && selectedTrip == old(selectedTrip) && isLoading
      ensures user.Some? && owned.Fetched? && shared.Fetched?
              ==> trips == CombineTrips(owned.value, shared.value) && selectedTrip == FirstTrip(trips) && !isLoading
    {
      if user.None? {
        return;
      }
      isLoading := true;
      if owned.Threw? {
        return;
      }
      var ownedTrips := owned.value;
      if shared.Threw? {
        return;
      }
      var sharedTrips := shared.value;
      var combinedTrips := CombineTrips(ownedTrips, sharedTrips);
      trips := combinedTrips;
      if |combinedTrips| > 0 {
        selectedTrip := Some(combinedTrips[0]);
      } else {
        selectedTrip := None;
      }
      isLoading := false;
    }

    /** `updateTripList`: one trip appended at the end. */
    method UpdateTripList(t: Trip)
      modifies this
      ensures trips == old(trips) + [t]
      ensures selectedTrip == old(selectedTrip) && isLoading == old(isLoading)
    {
      trips := trips + [t];
    }

    /** `updateTrip`, `deleteTrip` and `updateTripSharedUsers`: the write to the
        hosted store (its completion is the parameter `write`), then the
        refresh. The services behind `updateTrip` and `deleteTrip`
        (trip-service.ts:33-80) catch every failure and resolve after a toast,
        so for them `write` is always `Completed` and the refresh always runs.
        Only the service behind `updateTripSharedUsers` (trip-service.ts:133-154)
        rethrows, and only there does a rejected write skip the refresh. */
    method RefreshAfterWrite(user: Option<string>, write: Completion, owned: Fetch<seq<Trip>>, shared: Fetch<seq<Trip>>)
      modifies this
      ensures write.Thrown? || user.None?
              ==> trips == old(trips) && selectedTrip == old(selectedTrip) && isLoading == old(isLoading)
      ensures write.Completed? && user.Some? && (owned.Threw? || shared.Threw?)
              ==> trips == old(trips) && selectedTrip == old(selectedTrip) && isLoading
      ensures write.Completed? && user.Some? && owned.Fetched? && shared.Fetched?
              ==> trips == CombineTrips(owned.value, shared.value) && selectedTrip == FirstTrip(trips) && !isLoading
    {
      if write.Thrown? {
        return;
      }
      GetAllTrips(user, owned, shared);
    }

    /** `addTrip`: without a signed-in user it only alerts; otherwise the trip
        is saved and the lists are refreshed. `saveTrip` (trip-service.ts:6-31)
        catches every failure and resolves after a toast, so the save has no
        outcome parameter: a failed save is followed by the refresh as well. */
    method AddTrip(user: Option<string>, owned: Fetch<seq<Trip>>, shared: Fetch<seq<Trip>>)
      modifies this
      ensures user.None?
              ==> trips == old(trips) && selectedTrip == old(selectedTrip) && isLoading == old(isLoading)
      ensures user.Some? && (owned.Threw? || shared.Threw?)
              ==> trips == old(trips) && selectedTrip == old(selectedTrip) && isLoading
      ensures user.Some? && owned.Fetched? && shared.Fetched?
              ==> trips == CombineTrips(owned.value, shared.value) && selectedTrip == FirstTrip(trips) && !isLoading
    {
      if user.None? {
        return;
      }
      RefreshAfterWrite(user, Completed, owned, shared);
    }

    /** `setSelectedTrip`, as the carousel calls it. */
    method SetSelectedTrip(t: Option<Trip>)
      modifies this
      ensures selectedTrip == t
      ensures trips == old(trips) && isLoading == old(isLoading)
    {
      selectedTrip := t;
    }
  }
}
