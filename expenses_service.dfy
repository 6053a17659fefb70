/** The expense reads and writes (frontend/src/lib/expenses-serivce.ts). The
    hosted store's answer to a query is an input: either an error, or the data
    it returned, which may be null. */
module ExpensesService {
  import opened Common
  import opened Domain

  /** The joined `trips (tripname)` record of a row; null when the join found
      nothing. */
  datatype TripJoin = TripJoin(tripname: string)

  /** A row of `select('*, trips (tripname)')`. */
  datatype ExpenseRow = ExpenseRow(
    id: int,
    tripId: string,
    name: string,
    amount: real,
    expenseType: string,
    paidBy: string,
    splitBetween: seq<string>,
    percentages: Option<Shares>,
    trips: Option<TripJoin>,
    createdAt: string)

  /** The store's answer: `{ error }` set, or `{ data }` (possibly null). */
  datatype QueryAnswer = QueryError | QueryData(data: Option<seq<ExpenseRow>>)

  const FetchFailed := "Failed to fetch expenses"

  /** One row as the cache holds it: every field copied, and `trip_name` taken
      from the joined trip. */
  function ToExpense(row: ExpenseRow): (e: Expense)
    requires row.trips.Some?
    ensures e.id == row.id && e.tripId == row.tripId && e.name == row.name && e.amount == row.amount
    ensures e.expenseType == row.expenseType && e.paidBy == row.paidBy && e.splitBetween == row.splitBetween
    ensures e.percentages == row.percentages && e.createdAt == row.createdAt
    ensures e.tripName == row.trips.value.tripname
  {
    Expense(row.id, row.tripId, row.name, row.amount, row.expenseType, row.paidBy,
            row.splitBetween, row.percentages, row.trips.value.tripname, row.createdAt)
  }

  /** `data.map(...)`: reading `item.trips.tripname` of a row without a joined
      trip throws, which fails the whole mapping. */
  function MapRows(rows: seq<ExpenseRow>): (r: Option<seq<Expense>>)
    ensures r.Some? <==> forall k :: 0 <= k < |rows| ==> rows[k].trips.Some?
    ensures r.Some? ==> |r.value| == |rows|
    ensures r.Some? ==> forall k :: 0 <= k < |rows| ==> r.value[k] == ToExpense(rows[k])
  {
    if rows == [] then Some([])
    else if rows[0].trips.None? then None
    else
      var rest := MapRows(rows[1..]);
      assert rest.Some? <==> forall k :: 1 <= k < |rows| ==> rows[k].trips.Some? by {
        assert forall k :: 1 <= k < |rows| ==> rows[1..][k - 1] == rows[k];
      }
      if rest.None? then None else Some([ToExpense(rows[0])] + rest.value)
  }

  /** `fetchExpensesForTrip`: an empty id answers `{}` without asking the store;
      otherwise the answer is `{ [tripId]: rows }`, or an error with the fixed
      message when the store fails or a row cannot be mapped. */
  function FetchExpensesForTrip(tripId: string, answer: QueryAnswer): (r: Result<map<string, seq<Expense>>>)
    ensures tripId == "" ==> r == Ok(map[])
    ensures r.Err? ==> r.msg == FetchFailed
    ensures tripId != "" && r.Ok? ==> r.value.Keys == {tripId}
    ensures tripId != "" ==>
              (r.Err? <==> answer.QueryError? || (answer.data.Some? && MapRows(answer.data.value).None?))
  {
    if tripId == "" then Ok(map[])
    else match answer
      case QueryError => Err(FetchFailed)
      case QueryData(None) => Ok(map[tripId := []])
      case QueryData(Some(rows)) =>
        var mapped := MapRows(rows);
        if mapped.None? then Err(FetchFailed) else Ok(map[tripId := mapped.value])
  }

  /** A successful read lists, under the trip's id, one record per row in the
      rows' order, each with the joined trip name; a null answer lists none. */
  lemma FetchedRecordsFollowRows(tripId: string, answer: QueryAnswer)
    requires tripId != "" && FetchExpensesForTrip(tripId, answer).Ok?
    ensures answer.QueryData?
    ensures var es := FetchExpensesForTrip(tripId, answer).value[tripId];
            match answer.data
            case None => es == []
            case Some(rows) =>
              |es| == |rows| && forall k :: 0 <= k < |rows| ==>
                es[k] == ToExpense(rows[k]) && es[k].tripName == rows[k].trips.value.tripname
  {
  }

  /** One null join fails the read however many other rows map. */
  lemma OneMissingJoinFailsRead(tripId: string, rows: seq<ExpenseRow>, k: int)
    requires tripId != "" && 0 <= k < |rows| && rows[k].trips.None?
    ensures FetchExpensesForTrip(tripId, QueryData(Some(rows))) == Err(FetchFailed)
  {
  }

  /** What `addExpenseToSupabase` submits: `{ trip_id, name, amount,
      expense_type, paid_by, split_between, percentages }`. */
  datatype ExpenseRequest = ExpenseRequest(
    tripId: string,
    name: string,
    amount: real,
    expenseType: string,
    paidBy: string,
    splitBetween: seq<string>,
    percentages: Option<Shares>)

  /** `addExpenseToSupabase` returns normally on every answer; the only visible
      effect is the success toast, shown iff the insert reports no error. */
  function AddExpenseToast(answer: InsertAnswer): (toast: bool)
    ensures toast <==> answer == Inserted
  {
    match answer
    case Inserted => true
    case InsertError(_) => false
    case InsertThrew => false
  }
}
