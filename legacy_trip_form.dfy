/** The older trip form (src/components/TripForm.tsx), which writes to the
    `trips` table itself: it inserts a new row with the owner and a random
    cover image, or updates the three edited columns of an existing row. */
module LegacyTripForm {
  import opened Common
  import TripForm

  /** The cover image ids `Math.floor(Math.random() * 7) + 1` can produce. */
  const ImageCount: int := 7

  /** The inserted row. */
  datatype InsertRow = InsertRow(tripname: string, country: string, from: int, to: int, ownerid: string, imageurl: int)

  /** The columns the update writes. */
  datatype UpdateColumns = UpdateColumns(tripname: string, country: string, from: int, to: int)

  datatype Write = NoWrite | Insert(row: InsertRow) | Update(id: string, columns: UpdateColumns)

  /** A submit's write, and whether `onTripUpdate` is then called. */
  datatype Submitted = Submitted(write: Write, refreshed: bool)

  /** `onSubmit` and `onUpdated` behind `form.handleSubmit`; `pick` stands for
      `Math.floor(Math.random() * 7)` and `answer` for the store's reply to the
      write, which only triggers the refresh callback when it reports no error. */
  function HandleSubmit(isUpdated: bool, trip: Option<TripForm.TripFormValues>, user: Option<string>,
                        v: TripForm.FormValues, pick: int, answer: InsertAnswer): (s: Submitted)
    requires 0 <= pick < ImageCount
    ensures s.write.NoWrite? <==> !TripForm.Valid(v) || (isUpdated && trip.None?) || (!isUpdated && user.None?)
    ensures s.write.Insert? ==> !isUpdated && s.write.row == InsertRow(v.tripname, v.country, v.from.value, v.to.value, user.value, pick + 1)
    ensures s.write.Update? ==> isUpdated && s.write.id == trip.value.id
                                && s.write.columns == UpdateColumns(v.tripname, v.country, v.from.value, v.to.value)
    ensures s.refreshed <==> !s.write.NoWrite? && answer == Inserted
  {
    if !TripForm.Valid(v) then Submitted(NoWrite, false)
    else if isUpdated then
      if trip.None? then Submitted(NoWrite, false)
      else Submitted(Update(trip.value.id, UpdateColumns(v.tripname, v.country, v.from.value, v.to.value)), answer == Inserted)
    else if user.None? then Submitted(NoWrite, false)
    else Submitted(Insert(InsertRow(v.tripname, v.country, v.from.value, v.to.value, user.value, pick + 1)), answer == Inserted)
  }

  /** An inserted row is owned by the signed-in user, has a cover image id in
      1..7 and satisfies the schema. */
  lemma InsertedRowsAreWellFormed(trip: Option<TripForm.TripFormValues>, user: Option<string>,
                                  v: TripForm.FormValues, pick: int, answer: InsertAnswer)
    requires 0 <= pick < ImageCount
    ensures var s := HandleSubmit(false, trip, user, v, pick, answer);
            s.write.Insert? ==> user == Some(s.write.row.ownerid) && 1 <= s.write.row.imageurl <= ImageCount
                                && 2 <= |s.write.row.tripname| <= 50 && |s.write.row.country| >= 1
                                && s.write.row.from <= s.write.row.to
  {
    TripForm.ValidIff(v);
  }

  /** The two forms send the same trip fields: the legacy insert carries
      exactly the modern create request plus the owner and the image, and the
      legacy update carries the modern update request's fields for the same id. */
  lemma AgreesWithModernForm(isUpdated: bool, trip: Option<TripForm.TripFormValues>, user: Option<string>,
                             v: TripForm.FormValues, pick: int, answer: InsertAnswer)
    requires 0 <= pick < ImageCount
    ensures var legacy := HandleSubmit(isUpdated, trip, user, v, pick, answer).write;
            var modern := TripForm.HandleSubmit(isUpdated, trip, user, v);
            (legacy.NoWrite? <==> modern.Nothing?)
            && (legacy.Insert? <==> modern.AddTrip?)
            && (legacy.Insert? ==> modern.add == TripForm.AddTripRequest(legacy.row.tripname, legacy.row.country, legacy.row.from, legacy.row.to))
            && (legacy.Update? ==> modern.update == TripForm.UpdateTripRequest(legacy.id, legacy.columns.tripname, legacy.columns.country, legacy.columns.from, legacy.columns.to))
  {
  }
}
