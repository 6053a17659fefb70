/** The trip create/update form (frontend/src/components/TripForm.tsx): the
    validation schema every trip form shares, the default values, and the
    request each submit handler passes to the trip store. The older forms in
    `legacy_trip_form.dfy` and `edit_trip_form.dfy` reuse the schema. */
module TripForm {
  import opened Common

  /** One day in milliseconds, for `addDays`. */
  const Day: int := 86_400_000

  /** The form's values; a date the picker has not set is `None`. */
  datatype FormValues = FormValues(tripname: string, country: string, from: Option<int>, to: Option<int>)

  /** The `trip` prop: an existing trip being edited. */
  datatype TripFormValues = TripFormValues(id: string, tripname: string, country: string, from: int, to: int)

  /** One failed rule of `formSchema`; the range refinement only runs once both
      dates are present. */
  datatype Issue = NameTooShort | NameTooLong | CountryMissing | DateMissing | RangeReversed

  function SchemaIssues(v: FormValues): (issues: seq<Issue>)
    ensures NameTooShort in issues <==> |v.tripname| < 2
    ensures NameTooLong in issues <==> |v.tripname| > 50
    ensures CountryMissing in issues <==> |v.country| < 1
    ensures DateMissing in issues <==> v.from.None? || v.to.None?
    ensures RangeReversed in issues <==> v.from.Some? && v.to.Some? && v.from.value > v.to.value
  {
    (if |v.tripname| < 2 then [NameTooShort] else [])
    + (if |v.tripname| > 50 then [NameTooLong] else [])
    + (if |v.country| < 1 then [CountryMissing] else [])
    + (if v.from.None? || v.to.None? then [DateMissing]
       else if v.from.value > v.to.value then [RangeReversed] else [])
  }

  predicate Valid(v: FormValues) {
    SchemaIssues(v) == []
  }

  /** The schema accepts exactly a name of 2 to 50 characters, a non-empty
      country and two dates in order. */
  lemma ValidIff(v: FormValues)
    ensures Valid(v) <==> (2 <= |v.tripname| <= 50 && |v.country| >= 1
                           && v.from.Some? && v.to.Some? && v.from.value <= v.to.value)
  {
    var issues := SchemaIssues(v);
    if issues != [] {
      assert issues[0] in issues;
    }
  }

  /** `defaultValues`: the edited trip's values, or an empty form whose range
      runs from `now` to ten days later. */
  function Defaults(trip: Option<TripFormValues>, now: int): (v: FormValues)
    ensures trip.Some? ==> v == FormValues(trip.value.tripname, trip.value.country, Some(trip.value.from), Some(trip.value.to))
    ensures trip.None? ==> v.tripname == "" && v.country == "" && v.from == Some(now) && v.to == Some(now + 10 * Day)
  {
    if trip.Some? then FormValues(trip.value.tripname, trip.value.country, Some(trip.value.from), Some(trip.value.to))
    else FormValues("", "", Some(now), Some(now + 10 * Day))
  }

  /** The prefilled form of a trip that itself satisfied the schema passes it. */
  lemma EditDefaultsValid(t: TripFormValues, now: int)
    requires 2 <= |t.tripname| <= 50 && |t.country| >= 1 && t.from <= t.to
    ensures Valid(Defaults(Some(t), now))
  {
    ValidIff(Defaults(Some(t), now));
  }

  /** `addTripRequest` */
  datatype AddTripRequest = AddTripRequest(tripname: string, country: string, from: int, to: int)

  /** The record `onUpdated` passes to `updateTrip`. */
  datatype UpdateTripRequest = UpdateTripRequest(tripid: string, tripname: string, country: string, from: int, to: int)

  /** What one submit does with the trip store. */
  datatype Submitted = Nothing | AddTrip(add: AddTripRequest) | UpdateTrip(update: UpdateTripRequest)

  /** `form.handleSubmit(isUpdated ? onUpdated : onSubmit)`: values the schema
      rejects reach neither handler; `onSubmit` needs a signed-in user and
      `onUpdated` a trip. */
  function HandleSubmit(isUpdated: bool, trip: Option<TripFormValues>, user: Option<string>, v: FormValues): (s: Submitted)
    ensures s.Nothing? <==> !Valid(v) || (isUpdated && trip.None?) || (!isUpdated && user.None?)
    ensures s.AddTrip? ==> !isUpdated && s.add == AddTripRequest(v.tripname, v.country, v.from.value, v.to.value)
    ensures s.UpdateTrip? ==> isUpdated && s.update == UpdateTripRequest(trip.value.id, v.tripname, v.country, v.from.value, v.to.value)
  {
    if !Valid(v) then Nothing
    else if isUpdated then
      if trip.None? then Nothing
      else UpdateTrip(UpdateTripRequest(trip.value.id, v.tripname, v.country, v.from.value, v.to.value))
    else if user.None? then Nothing
    else AddTrip(AddTripRequest(v.tripname, v.country, v.from.value, v.to.value))
  }

  /** Every request the form sends satisfies the schema's rules. */
  lemma SubmittedRequestsObeySchema(isUpdated: bool, trip: Option<TripFormValues>, user: Option<string>, v: FormValues)
    ensures var s := HandleSubmit(isUpdated, trip, user, v);
            (s.AddTrip? ==> 2 <= |s.add.tripname| <= 50 && |s.add.country| >= 1 && s.add.from <= s.add.to)
            && (s.UpdateTrip? ==> 2 <= |s.update.tripname| <= 50 && |s.update.country| >= 1 && s.update.from <= s.update.to)
  {
    ValidIff(v);
  }
}
