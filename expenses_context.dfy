/** The expense cache (frontend/src/context/ExpensesContext.tsx): expenses per
    trip id, a refresh counter, and the loading/error flags around a read. */
module ExpensesContext {
  import opened Common
  import opened Domain
  import ExpensesService

  /** `{ ...prev, ...result }`: the result's keys override, the others stay. */
  function Merge(prev: map<string, seq<Expense>>, result: map<string, seq<Expense>>): (m: map<string, seq<Expense>>)
    ensures m.Keys == prev.Keys + result.Keys
    ensures forall k :: k in result ==> m[k] == result[k]
    ensures forall k :: k in prev && k !in result ==> m[k] == prev[k]
  {
    prev + result
  }

  /** A read of one trip changes that trip's entry alone: every other trip's
      expenses are kept, and the trip's own entry is the fresh list. */
  lemma FetchTouchesOneTrip(prev: map<string, seq<Expense>>, tripId: string, answer: ExpensesService.QueryAnswer, other: string)
    requires ExpensesService.FetchExpensesForTrip(tripId, answer).Ok?
    requires other != tripId
    ensures var m := Merge(prev, ExpensesService.FetchExpensesForTrip(tripId, answer).value);
            (other in m <==> other in prev) && (other in prev ==> m[other] == prev[other])
    ensures tripId != "" ==>
              var result := ExpensesService.FetchExpensesForTrip(tripId, answer).value;
              Merge(prev, result)[tripId] == result[tripId]
  {
  }

  /** Reading the same answer twice leaves the cache as one read does. */
  lemma MergeIdempotent(prev: map<string, seq<Expense>>, result: map<string, seq<Expense>>)
    ensures Merge(Merge(prev, result), result) == Merge(prev, result)
  {
    var once := Merge(prev, result);
    var twice := Merge(once, result);
    assert twice.Keys == once.Keys;
    forall k | k in once ensures twice[k] == once[k] {
    }
  }

  /** The provider's state cells. */
  class ExpenseProvider {
    var expenses: map<string, seq<Expense>>
    var refreshKey: nat
    var loading: bool
    var error: Option<string>

    /** An empty cache, counter 0, loading, no error. */
    constructor ()
      ensures expenses == map[] && refreshKey == 0 && loading && error == None
    {
      expenses := map[];
      refreshKey := 0;
      loading := true;
      error := None;
    }

    /** The first two steps of `fetchExpenses`: loading on, error cleared. */
    method BeginFetch()
      modifies this
      ensures loading && error == None
      ensures expenses == old(expenses) && refreshKey == old(refreshKey)
    {
      loading := true;
      error := None;
    }

    /** The rest of `fetchExpenses`: merge the answer, or record the failure;
        loading ends either way. */
    method FinishFetch(tripId: string, answer: ExpensesService.QueryAnswer)
      modifies this
      ensures var r := ExpensesService.FetchExpensesForTrip(tripId, answer);
              (r.Ok? ==> expenses == Merge(old(expenses), r.value) && error == old(error))
              && (r.Err? ==> expenses == old(expenses) && error == Some("Failed to fetch expenses"))
      ensures !loading && refreshKey == old(refreshKey)
    {
      var result := ExpensesService.FetchExpensesForTrip(tripId, answer);
      if result.Ok? {
        expenses := Merge(expenses, result.value);
      } else {
        error := Some("Failed to fetch expenses");
      }
      loading := false;
    }

    /** `fetchExpenses`. */
    method FetchExpenses(tripId: string, answer: ExpensesService.QueryAnswer)
      modifies this
      ensures var r := ExpensesService.FetchExpensesForTrip(tripId, answer);
              (r.Ok? ==> expenses == Merge(old(expenses), r.value) && error == None)
              && (r.Err? ==> expenses == old(expenses) && error == Some("Failed to fetch expenses"))
      ensures !loading && refreshKey == old(refreshKey)
    {
      BeginFetch();
      FinishFetch(tripId, answer);
    }

    /** `handleRefresh` */
    method HandleRefresh()
      modifies this
      ensures refreshKey == old(refreshKey) + 1
      ensures expenses == old(expenses) && loading == old(loading) && error == old(error)
    {
      refreshKey := refreshKey + 1;
    }

    /** The effect on the selected trip's id and the counter: a truthy id is
        read, anything else empties the cache. */
    method SelectionChanged(selectedTripId: Option<string>, answer: ExpensesService.QueryAnswer)
      modifies this
      ensures (selectedTripId.None? || selectedTripId.value == "") ==>
                expenses == map[] && loading == old(loading) && error == old(error)
      ensures selectedTripId.Some? && selectedTripId.value != "" ==>
                var r := ExpensesService.FetchExpensesForTrip(selectedTripId.value, answer);
                !loading
                && (r.Ok? ==> expenses == Merge(old(expenses), r.value) && error == None)
                && (r.Err? ==> expenses == old(expenses) && error == Some("Failed to fetch expenses"))
      ensures refreshKey == old(refreshKey)
    {
      if selectedTripId.Some? && selectedTripId.value != "" {
        FetchExpenses(selectedTripId.value, answer);
      } else {
        expenses := map[];
      }
    }
  }
}
