/** The records the components exchange with the hosted store and the identity
    provider: trips, their itinerary locations, expenses and user profiles.
    Dates are whole numbers (milliseconds since the epoch); amounts,
    percentages and coordinates are exact reals. */
module Domain {
  import opened Common

  /** One itinerary stop: `{lat, lng, location, userId, color}`. */
  datatype Location = Location(lat: real, lng: real, location: string, userId: string, color: string)

  /** A `trips` row (`TripResponse`); `sharedusers` holds the `userId` of each entry. */
  datatype Trip = Trip(
    id: string,
    tripname: string,
    country: string,
    from: int,
    to: int,
    imageurl: string,
    ownerid: string,
    locations: seq<Location>,
    sharedusers: seq<string>)

  /** The entries of a `percentages` object, in `Object.entries` order. */
  type Shares = seq<(string, real)>

  /** An `expenses` row as the expense cache holds it (`ExpenseResponse`);
      `percentages` is `None` when the row has no percentage map. */
  datatype Expense = Expense(
    id: int,
    tripId: string,
    name: string,
    amount: real,
    expenseType: string,
    paidBy: string,
    splitBetween: seq<string>,
    percentages: Option<Shares>,
    tripName: string,
    createdAt: string)

  /** A directory entry from the identity provider; null fields are `None`. */
  datatype UserProfile = UserProfile(
    id: string,
    email: Option<string>,
    firstName: Option<string>,
    lastName: Option<string>,
    imageUrl: Option<string>)

  /** `selectedTrip?.id ? expenses[tripId] || [] : []`: the expenses shown for
      the selected trip (an empty id is falsy, a missing key gives `[]`). */
  function TripExpenses(selectedTrip: Option<Trip>, expenses: map<string, seq<Expense>>): (es: seq<Expense>)
    ensures selectedTrip.None? ==> es == []
    ensures selectedTrip.Some? && selectedTrip.value.id != "" && selectedTrip.value.id in expenses
            ==> es == expenses[selectedTrip.value.id]
    ensures es != [] ==> selectedTrip.Some? && selectedTrip.value.id in expenses
  {
    if selectedTrip.Some? && selectedTrip.value.id != "" && selectedTrip.value.id in expenses
    then expenses[selectedTrip.value.id]
    else []
  }

  /** `user?.id || ''` */
  function ViewerId(user: Option<string>): string {
    if user.Some? then user.value else ""
  }

  /** The trip total both balance views accumulate: every amount, in order. */
  function TripTotal(es: seq<Expense>): real
    decreases |es|
  {
    if es == [] then 0.0 else TripTotal(es[..|es| - 1]) + es[|es| - 1].amount
  }

  lemma {:induction false} TripTotalConcat(a: seq<Expense>, b: seq<Expense>)
    ensures TripTotal(a + b) == TripTotal(a) + TripTotal(b)
    decreases |b|
  {
    if b == [] {
      assert a + b == a;
    } else {
      var b' := b[..|b| - 1];
      assert (a + b)[..|a + b| - 1] == a + b';
      assert (a + b)[|a + b| - 1] == b[|b| - 1];
      TripTotalConcat(a, b');
    }
  }

  /** The trip total depends on the amounts alone: two lists with the same
      amounts in the same order have the same total, whoever paid and however
      the expenses are shared. */
  lemma {:induction false} TripTotalIgnoresSharing(a: seq<Expense>, b: seq<Expense>)
    requires |a| == |b|
    requires forall k :: 0 <= k < |a| ==> a[k].amount == b[k].amount
    ensures TripTotal(a) == TripTotal(b)
    decreases |a|
  {
    if a != [] {
      TripTotalIgnoresSharing(a[..|a| - 1], b[..|b| - 1]);
    }
  }

  /** With non-negative amounts the trip total is non-negative. */
  lemma {:induction false} TripTotalNonNegative(es: seq<Expense>)
    requires forall k :: 0 <= k < |es| ==> es[k].amount >= 0.0
    ensures TripTotal(es) >= 0.0
    decreases |es|
  {
    if es != [] {
      TripTotalNonNegative(es[..|es| - 1]);
    }
  }
}
