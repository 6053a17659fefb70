/** The add-expense form (frontend/src/components/TripExpenseForm.tsx): its
    validation schema, the participant list derived from the selected trip,
    the payer and split-list editing rules, and the record it submits. */
module TripExpenseForm {
  import opened Common
  import opened Domain
  import ExpensesService
  import ExpensesContext
  import TripExpensesDetails
  import TripExpensesCard

  /** The values the form holds. */
  datatype FormValues = FormValues(name: string, amount: real, expenseType: string, paidBy: string, splitBetween: seq<string>)

  /** `defaultValues` */
  const Defaults := FormValues("", 0.0, "FOOD", "", [])

  const ExpenseTypes: seq<string> := ["FOOD", "TRAVEL", "ACCOMMODATION", "SHOPPING", "MISC"]

  /** One failed rule of `expenseSchema`. */
  datatype Issue = NameRequired | AmountNotPositive | UnknownType | PayerRequired | SplitEmpty

  /** Every rule the values break, in field order. */
  function SchemaIssues(v: FormValues): (issues: seq<Issue>)
    ensures NameRequired in issues <==> |v.name| < 1
    ensures AmountNotPositive in issues <==> v.amount <= 0.0
    ensures UnknownType in issues <==> v.expenseType !in ExpenseTypes
    ensures PayerRequired in issues <==> |v.paidBy| < 1
    ensures SplitEmpty in issues <==> |v.splitBetween| == 0
  {
    (if |v.name| < 1 then [NameRequired] else [])
    + (if v.amount <= 0.0 then [AmountNotPositive] else [])
    + (if v.expenseType !in ExpenseTypes then [UnknownType] else [])
    + (if |v.paidBy| < 1 then [PayerRequired] else [])
    + (if |v.splitBetween| == 0 then [SplitEmpty] else [])
  }

  /** The values the schema accepts. */
  predicate Valid(v: FormValues) {
    SchemaIssues(v) == []
  }

  /** The schema accepts exactly a non-empty name, a positive amount, one of the
      five types, a non-empty payer and a non-empty split. */
  lemma ValidIff(v: FormValues)
    ensures Valid(v) <==> (|v.name| >= 1 && v.amount > 0.0 && v.expenseType in ExpenseTypes
                           && |v.paidBy| >= 1 && |v.splitBetween| > 0)
  {
    var issues := SchemaIssues(v);
    if issues != [] {
      assert issues[0] in issues;
    }
  }

  /** The untouched form is rejected: it has no name, no amount, no payer and
      an empty split. */
  lemma DefaultsRejected()
    ensures SchemaIssues(Defaults) == [NameRequired, AmountNotPositive, PayerRequired, SplitEmpty]
  {
  }

  /** ASCII white space, which `trim` removes from both ends. */
  predicate IsSpace(c: char) {
    c == ' ' || c == '\t' || c == '\n' || c == '\r' || c == 11 as char || c == 12 as char
  }

  function TrimStart(s: string): string {
    if s != [] && IsSpace(s[0]) then TrimStart(s[1..]) else s
  }

  function TrimEnd(s: string): string {
    if s != [] && IsSpace(s[|s| - 1]) then TrimEnd(s[..|s| - 1]) else s
  }

  /** `s.trim()`: leading, then trailing white space dropped. */
  function Trim(s: string): string {
    TrimEnd(TrimStart(s))
  }

  lemma {:induction false} TrimStartSpec(s: string)
    ensures var r := TrimStart(s);
            |r| <= |s| && r == s[|s| - |r|..]
            && (forall k :: 0 <= k < |s| - |r| ==> IsSpace(s[k]))
            && (r != [] ==> !IsSpace(r[0]))
  {
    if s != [] && IsSpace(s[0]) {
      TrimStartSpec(s[1..]);
      var r := TrimStart(s[1..]);
      assert s[1..][|s| - 1 - |r|..] == s[|s| - |r|..];
      forall k | 1 <= k < |s| - |r| ensures IsSpace(s[k]) {
        assert s[1..][k - 1] == s[k];
      }
    }
  }

  lemma {:induction false} TrimEndSpec(s: string)
    ensures var r := TrimEnd(s);
            |r| <= |s| && r == s[..|r|]
            && (forall k :: |r| <= k < |s| ==> IsSpace(s[k]))
            && (r != [] ==> !IsSpace(r[|r| - 1]))
  {
    if s != [] && IsSpace(s[|s| - 1]) {
      TrimEndSpec(s[..|s| - 1]);
      var r := TrimEnd(s[..|s| - 1]);
      assert s[..|s| - 1][..|r|] == s[..|r|];
      forall k | |r| <= k < |s| - 1 ensures IsSpace(s[k]) {
        assert s[..|s| - 1][k] == s[k];
      }
    }
  }

  /** The trimmed text has no white space at either end and is a contiguous
      piece of the original. */
  lemma TrimSpec(s: string)
    ensures var r := Trim(s);
            (r == [] || (!IsSpace(r[0]) && !IsSpace(r[|r| - 1])))
            && Includes(s, r)
  {
    var t := TrimStart(s);
    TrimStartSpec(s);
    TrimEndSpec(t);
    var r := TrimEnd(t);
    assert OccursAt(s, r, |s| - |t|);
    if r != [] {
      assert r[0] == t[0];
    }
  }

  /** A choosable person: `{ id, name, imageUrl }`. */
  datatype Participant = Participant(id: string, name: string, imageUrl: string)

  /** `` `${firstName} ${lastName || ''}`.trim() ``: a null first name is
      printed as "null". */
  function DisplayName(u: UserProfile): string {
    var first := if u.firstName.Some? then u.firstName.value else "null";
    var last := if u.lastName.Some? then u.lastName.value else "";
    Trim(first + " " + last)
  }

  function ToParticipant(u: UserProfile): Participant {
    Participant(u.id, DisplayName(u), if u.imageUrl.Some? then u.imageUrl.value else "")
  }

  /** The trip's people: its shared users and its owner. */
  predicate OnTrip(trip: Trip, id: string) {
    id in trip.sharedusers || id == trip.ownerid
  }

  /** The directory users on the trip, in directory order. */
  function ParticipantsOf(trip: Trip, users: seq<UserProfile>): (ps: seq<Participant>)
    ensures |ps| <= |users|
  {
    if users == [] then []
    else Offered(trip, users[0]) + ParticipantsOf(trip, users[1..])
  }

  /** What one directory user contributes to the participants. */
  function Offered(trip: Trip, u: UserProfile): (ps: seq<Participant>)
    ensures OnTrip(trip, u.id) ==> ps == [ToParticipant(u)]
    ensures !OnTrip(trip, u.id) ==> ps == []
  {
    if OnTrip(trip, u.id) then [ToParticipant(u)] else []
  }

  /** Only people on the trip are offered. */
  lemma {:induction false} ParticipantsOnTrip(trip: Trip, users: seq<UserProfile>)
    ensures forall k :: 0 <= k < |ParticipantsOf(trip, users)| ==> OnTrip(trip, ParticipantsOf(trip, users)[k].id)
  {
    if users != [] {
      ParticipantsOnTrip(trip, users[1..]);
      var head := Offered(trip, users[0]);
      var rest := ParticipantsOf(trip, users[1..]);
      var all: seq<Participant> := head + rest;
      assert ParticipantsOf(trip, users) == all;
      forall k | 0 <= k < |all| ensures OnTrip(trip, all[k].id) {
        if k >= |head| {
          assert all[k] == rest[k - |head|];
        }
      }
    }
  }

  /** Every directory user on the trip is offered. */
  lemma {:induction false} ParticipantsCoverTrip(trip: Trip, users: seq<UserProfile>)
    ensures forall k :: 0 <= k < |users| && OnTrip(trip, users[k].id) ==> ToParticipant(users[k]) in ParticipantsOf(trip, users)
  {
    if users != [] {
      ParticipantsCoverTrip(trip, users[1..]);
      assert forall k :: 1 <= k < |users| ==> users[k] == users[1..][k - 1];
    }
  }

  lemma ParticipantsUnfold(trip: Trip, users: seq<UserProfile>)
    requires users != []
    ensures ParticipantsOf(trip, users) == Offered(trip, users[0]) + ParticipantsOf(trip, users[1..])
  {
  }

  /** Participants keep directory order across any split of the directory. */
  lemma {:induction false} ParticipantsConcat(trip: Trip, a: seq<UserProfile>, b: seq<UserProfile>)
    ensures ParticipantsOf(trip, a + b) == ParticipantsOf(trip, a) + ParticipantsOf(trip, b)
  {
    if a == [] {
      assert a + b == b;
    } else {
      ParticipantsConcat(trip, a[1..], b);
      ParticipantsConcatStep(trip, a, b);
    }
  }

  /** One step of the induction: the head of `a` leads both sides. */
  lemma ParticipantsConcatStep(trip: Trip, a: seq<UserProfile>, b: seq<UserProfile>)
    requires a != []
    requires ParticipantsOf(trip, a[1..] + b) == ParticipantsOf(trip, a[1..]) + ParticipantsOf(trip, b)
    ensures ParticipantsOf(trip, a + b) == ParticipantsOf(trip, a) + ParticipantsOf(trip, b)
  {
    var ab := a + b;
    assert ab[0] == a[0] && ab[1..] == a[1..] + b;
    ParticipantsUnfold(trip, ab);
    ParticipantsUnfold(trip, a);
    var h, p, q := Offered(trip, a[0]), ParticipantsOf(trip, a[1..]), ParticipantsOf(trip, b);
    assert h + (p + q) == (h + p) + q;
  }

  /** The effect on the selected trip and the directory: with no trip the list
      is kept; with a trip but no directory it is empty. */
  function ParticipantsAfter(current: seq<Participant>, trip: Option<Trip>, users: Option<seq<UserProfile>>): (ps: seq<Participant>)
    ensures trip.None? ==> ps == current
    ensures trip.Some? && users.None? ==> ps == []
    ensures trip.Some? && users.Some? ==> ps == ParticipantsOf(trip.value, users.value)
  {
    if trip.None? then current
    else if users.None? then []
    else ParticipantsOf(trip.value, users.value)
  }

  /** The payer select's handler on the split: every occurrence of the previous
      payer removed, the new payer appended (the empty-list fallback can never
      apply). */
  function SplitAfterPayerChange(split: seq<string>, previous: string, value: string): (r: seq<string>)
    ensures r == RemoveAll(split, previous) + [value]
  {
    var newSplit := RemoveAll(split, previous) + [value];
    if |newSplit| > 0 then newSplit else [value]
  }

  /** After a payer change the split is non-empty, ends with the new payer, and
      keeps every other member. */
  lemma PayerChangeKeepsOthers(split: seq<string>, previous: string, value: string)
    ensures var r := SplitAfterPayerChange(split, previous, value);
            |r| > 0 && r[|r| - 1] == value && value in r
            && (forall x :: x != previous && x != value ==> (x in r <==> x in split))
            && (previous != value ==> previous !in r)
  {
  }

  /** A new payer who was already in the split appears in it twice. */
  lemma PayerChangeCanDuplicate()
    ensures SplitAfterPayerChange(["a", "b"], "a", "b") == ["b", "b"]
  {
    assert RemoveAll(["a", "b"], "a") == ["b"] by {
      assert Filter(["a", "b"], x => x != "a") == ["b"] by {
        assert ["a", "b"][1..] == ["b"];
        assert ["b"][1..] == [];
      }
    }
  }

  /** A checkbox change: checking appends its id, unchecking removes every
      occurrence. */
  function SplitAfterCheckbox(split: seq<string>, id: string, checked: bool): (r: seq<string>)
    ensures checked ==> r == split + [id]
    ensures !checked ==> id !in r && forall x :: x != id ==> (x in r <==> x in split)
  {
    if checked then split + [id] else RemoveAll(split, id)
  }

  /** The payer's own checkbox is disabled. */
  predicate CheckboxDisabled(v: FormValues, id: string) {
    v.paidBy == id
  }

  /** The split holds the payer. */
  predicate PayerInSplit(v: FormValues) {
    v.paidBy in v.splitBetween
  }

  /** Choosing a payer puts the payer in the split, and the enabled checkboxes
      cannot take the payer out again. */
  lemma PayerStaysInSplit(v: FormValues, payer: string, id: string, checked: bool)
    ensures PayerInSplit(v.(paidBy := payer, splitBetween := SplitAfterPayerChange(v.splitBetween, v.paidBy, payer)))
    ensures PayerInSplit(v) && !CheckboxDisabled(v, id) ==>
              PayerInSplit(v.(splitBetween := SplitAfterCheckbox(v.splitBetween, id, checked)))
  {
  }

  /** The record `onSubmit` hands to `addExpenseToSupabase`; it never carries a
      percentage map. */
  function ExpenseRecord(trip: Trip, v: FormValues): (req: ExpensesService.ExpenseRequest)
    ensures req.tripId == trip.id && req.name == v.name && req.amount == v.amount
    ensures req.expenseType == v.expenseType && req.paidBy == v.paidBy && req.splitBetween == v.splitBetween
    ensures req.percentages.None?
  {
    ExpensesService.ExpenseRequest(trip.id, v.name, v.amount, v.expenseType, v.paidBy, v.splitBetween, None)
  }

  /** A submitted expense as the store serves it back, with its percentage
      map absent as the form left it. */
  lemma FormExpenseShowsNoDebt()
    ensures var e := Expense(1, "t", "Dinner", 90.0, "FOOD", "p", ["p", "q"], None, "Trip", "");
            TripExpensesDetails.Contribution(e, "q") == 0.0 && TripExpensesCard.Contribution(e, Some("q")) == 45.0
  {
    var e := Expense(1, "t", "Dinner", 90.0, "FOOD", "p", ["p", "q"], None, "Trip", "");
    TripExpensesDetails.NonPayerOwesOwnShare(e, "q");
  }

  /** Every id of `ids` with the percentage `c`. */
  function Uniform(ids: seq<string>, c: real): (m: Shares)
    ensures |m| == |ids| && forall k :: 0 <= k < |ids| ==> m[k] == (ids[k], c)
  {
    seq(|ids|, k requires 0 <= k < |ids| => (ids[k], c))
  }

  /** The percentage map the form evidently means to send: an equal share of
      100 for every entry of the split. */
  function EqualShares(split: seq<string>): (m: Shares)
    ensures |m| == |split|
    ensures forall k :: 0 <= k < |split| ==> m[k] == (split[k], 100.0 / |split| as real)
  {
    if split == [] then [] else Uniform(split, 100.0 / |split| as real)
  }

  /** The record with that map. */
  function CorrectedExpenseRecord(trip: Trip, v: FormValues): (req: ExpensesService.ExpenseRequest)
    ensures req == ExpenseRecord(trip, v).(percentages := Some(EqualShares(v.splitBetween)))
  {
    ExpensesService.ExpenseRequest(trip.id, v.name, v.amount, v.expenseType, v.paidBy, v.splitBetween,
                                   Some(EqualShares(v.splitBetween)))
  }

  lemma {:induction false} ShareOfUniform(ids: seq<string>, c: real, id: string)
    requires id in ids
    ensures TripExpensesDetails.ShareOf(Uniform(ids, c), id) == c
  {
    var m := Uniform(ids, c);
    if ids[0] != id {
      assert m[1..] == Uniform(ids[1..], c);
      ShareOfUniform(ids[1..], c, id);
    }
  }

  lemma {:induction false} OthersPercentOfUniform(ids: seq<string>, c: real, viewer: string)
    ensures TripExpensesDetails.OthersPercent(Uniform(ids, c), viewer)
            == (|ids| - TripExpensesCard.Occurrences(ids, viewer)) as real * c
    decreases |ids|
  {
    if ids != [] {
      var rest := ids[..|ids| - 1];
      UniformPrefix(ids, c);
      OthersPercentOfUniform(rest, c, viewer);
      var d := |rest| - TripExpensesCard.Occurrences(rest, viewer);
      if ids[|ids| - 1] != viewer {
        assert |ids| - TripExpensesCard.Occurrences(ids, viewer) == d + 1;
        assert (d as real + 1.0) * c == d as real * c + c;
      } else {
        assert |ids| - TripExpensesCard.Occurrences(ids, viewer) == d;
      }
    }
  }

  lemma UniformPrefix(ids: seq<string>, c: real)
    requires ids != []
    ensures Uniform(ids, c)[..|ids| - 1] == Uniform(ids[..|ids| - 1], c)
  {
  }

  /** The payer's credit under equal shares is the card's. */
  lemma PayerCreditArithmetic(a: real, n: real)
    requires n >= 1.0
    ensures a * ((n - 1.0) * (100.0 / n)) / 100.0 == -(-(a / n * (n - 1.0)))
  {
    assert (n - 1.0) * (100.0 / n) == 100.0 * ((n - 1.0) / n);
    assert a * (100.0 * ((n - 1.0) / n)) / 100.0 == a * ((n - 1.0) / n);
    assert a * ((n - 1.0) / n) == a / n * (n - 1.0);
  }

  /** With the equal-share map, the detailed view charges every split member
      exactly what the summary card charges, provided the payer is in a split
      without repeated ids. */
  lemma EqualSharesAgreeWithCard(e: Expense, viewer: string)
    requires e.percentages == Some(EqualShares(e.splitBetween))
    requires Distinct(e.splitBetween) && e.paidBy in e.splitBetween && viewer in e.splitBetween
    ensures TripExpensesDetails.Contribution(e, viewer) == TripExpensesCard.Contribution(e, Some(viewer))
  {
    var split := e.splitBetween;
    var n := |split| as real;
    var c := 100.0 / n;
    assert EqualShares(split) == Uniform(split, c);
    if e.paidBy == viewer {
      PayerAgrees(e, split, n, c);
    } else {
      ShareOfUniform(split, c, viewer);
      NonPayerAgrees(e, viewer);
    }
  }

  lemma NonPayerAgrees(e: Expense, viewer: string)
    requires viewer in e.splitBetween && e.paidBy != viewer
    requires TripExpensesDetails.ShareOf(TripExpensesDetails.PercentEntries(e), viewer) == 100.0 / |e.splitBetween| as real
    ensures TripExpensesDetails.Contribution(e, viewer) == TripExpensesCard.Contribution(e, Some(viewer))
  {
    TripExpensesCard.NonPayerShare(e, Some(viewer));
    DetailsNonPayerShare(e, viewer, |e.splitBetween| as real);
  }

  /** A non-payer holding `100 / n` percent owes the `n`-th part in the detailed view. */
  lemma DetailsNonPayerShare(e: Expense, viewer: string, n: real)
    requires e.paidBy != viewer && n >= 1.0
    requires TripExpensesDetails.ShareOf(TripExpensesDetails.PercentEntries(e), viewer) == 100.0 / n
    ensures TripExpensesDetails.Contribution(e, viewer) == e.amount / n
  {
    TripExpensesDetails.NonPayerOwesOwnShare(e, viewer);
    ShareArithmetic(e.amount, n);
  }

  /** The non-payer's share under equal shares is the card's. */
  lemma ShareArithmetic(a: real, n: real)
    requires n >= 1.0
    ensures a * (100.0 / n) / 100.0 == a / n
  {
    assert (100.0 / n) / 100.0 == 1.0 / n;
    assert a * (100.0 / n) / 100.0 == a * ((100.0 / n) / 100.0);
    assert a * (1.0 / n) == a / n;
  }

  lemma PayerAgrees(e: Expense, split: seq<string>, n: real, c: real)
    requires split == e.splitBetween && n == |split| as real && n >= 1.0 && c == 100.0 / n
    requires e.percentages == Some(Uniform(split, c))
    requires Distinct(split) && e.paidBy in split
    ensures TripExpensesDetails.Contribution(e, e.paidBy) == TripExpensesCard.Contribution(e, Some(e.paidBy))
  {
    OthersPercentOfUniform(split, c, e.paidBy);
    TripExpensesCard.OccurrencesOfDistinct(split, e.paidBy);
    TripExpensesDetails.OthersOweIsOthersShare(e.amount, Uniform(split, c), e.paidBy);
    assert TripExpensesDetails.OthersPercent(Uniform(split, c), e.paidBy) == (n - 1.0) * c;
    PayerCreditArithmetic(e.amount, n);
  }

  /** The form's state. */
  class ExpenseForm {
    var values: FormValues
    var participants: seq<Participant>

    constructor ()
      ensures values == Defaults && participants == []
    {
      values := Defaults;
      participants := [];
    }

    /** The participants effect. */
    method TripOrUsersChanged(trip: Option<Trip>, users: Option<seq<UserProfile>>)
      modifies this
      ensures participants == ParticipantsAfter(old(participants), trip, users)
      ensures values == old(values)
    {
      if trip.Some? {
        participants := if users.Some? then ParticipantsOf(trip.value, users.value) else [];
      }
    }

    /** The payer select's `onValueChange`. */
    method PayerChanged(value: string)
      modifies this
      ensures values == old(values).(paidBy := value, splitBetween := SplitAfterPayerChange(old(values).splitBetween, old(values).paidBy, value))
      ensures participants == old(participants)
    {
      var updatedSplit := RemoveAll(values.splitBetween, values.paidBy);
      var newSplit := updatedSplit + [value];
      values := values.(splitBetween := if |newSplit| > 0 then newSplit else [value]);
      values := values.(paidBy := value);
    }

    /** A split checkbox's `onCheckedChange`. */
    method CheckboxChanged(id: string, checked: bool)
      modifies this
      ensures values == old(values).(splitBetween := SplitAfterCheckbox(old(values).splitBetween, id, checked))
      ensures participants == old(participants)
    {
      if checked {
        values := values.(splitBetween := values.splitBetween + [id]);
      } else {
        values := values.(splitBetween := RemoveAll(values.splitBetween, id));
      }
    }

    /** `onSubmit`, which the form's `handleSubmit` calls only with values that
        passed the schema: with no trip nothing is written; otherwise the
        record is inserted, the form is reset and the expense cache is told to
        refresh. */
    method OnSubmit(trip: Option<Trip>, cache: ExpensesContext.ExpenseProvider) returns (sent: Option<ExpensesService.ExpenseRequest>)
      requires Valid(values)
      modifies this, cache
      ensures trip.None? ==> sent.None? && values == old(values) && cache.refreshKey == old(cache.refreshKey)
      ensures trip.Some? ==> sent == Some(ExpenseRecord(trip.value, old(values))) && values == Defaults
                             && cache.refreshKey == old(cache.refreshKey) + 1
      ensures participants == old(participants)
      ensures cache.expenses == old(cache.expenses) && cache.loading == old(cache.loading) && cache.error == old(cache.error)
    {
      if trip.None? {
        return None;
      }
      sent := Some(ExpenseRecord(trip.value, values));
      values := Defaults;
      cache.HandleRefresh();
    }
  }
}
