/** The older edit-only trip form (src/components/EditTripForm.tsx): it always
    edits the trip it is given, needs a signed-in user, and writes the three
    edited columns without a refresh callback. */
module EditTripForm {
  import opened Common
  import TripForm
  import LegacyTripForm

  /** `defaultValues`: a `Date` object is always truthy, so the `|| new Date()`
      fallbacks never apply and the form starts from the trip's values. */
  function Defaults(trip: TripForm.TripFormValues): (v: TripForm.FormValues)
    ensures v == TripForm.Defaults(Some(trip), 0)
  {
    TripForm.FormValues(trip.tripname, trip.country, Some(trip.from), Some(trip.to))
  }

  /** `onSubmit` behind `form.handleSubmit`: the update of `trip.id`, or no
      write when the schema rejects the values or no user is signed in. */
  function HandleSubmit(trip: TripForm.TripFormValues, user: Option<string>, v: TripForm.FormValues): (w: LegacyTripForm.Write)
    ensures w.NoWrite? <==> !TripForm.Valid(v) || user.None?
    ensures !w.Insert?
    ensures w.Update? ==> w.id == trip.id && w.columns == LegacyTripForm.UpdateColumns(v.tripname, v.country, v.from.value, v.to.value)
  {
    if !TripForm.Valid(v) || user.None? then LegacyTripForm.NoWrite
    else LegacyTripForm.Update(trip.id, LegacyTripForm.UpdateColumns(v.tripname, v.country, v.from.value, v.to.value))
  }

  /** For a signed-in user the edit form writes what the older form's update
      handler writes for the same trip. */
  lemma SameUpdateAsTripForm(trip: TripForm.TripFormValues, user: string, v: TripForm.FormValues, pick: int, answer: InsertAnswer)
    requires 0 <= pick < LegacyTripForm.ImageCount
    ensures HandleSubmit(trip, Some(user), v) == LegacyTripForm.HandleSubmit(true, Some(trip), Some(user), v, pick, answer).write
  {
  }

  /** Submitting the untouched form of a trip that satisfied the schema
      rewrites the trip's own values. */
  lemma UntouchedSubmitRewritesTrip(trip: TripForm.TripFormValues, user: string)
    requires 2 <= |trip.tripname| <= 50 && |trip.country| >= 1 && trip.from <= trip.to
    ensures HandleSubmit(trip, Some(user), Defaults(trip))
            == LegacyTripForm.Update(trip.id, LegacyTripForm.UpdateColumns(trip.tripname, trip.country, trip.from, trip.to))
  {
    TripForm.EditDefaultsValid(trip, 0);
  }
}
