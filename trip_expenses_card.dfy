/** The expense summary card (frontend/src/components/TripExpensesCard.tsx):
    the equal-split balance calculator. Every expense is shared equally among
    the entries of `split_between`. */
module TripExpensesCard {
  import opened Common
  import opened Domain
  import BalanceLabel

  /** `expense.split_between.includes(user?.id || '')` */
  predicate InSplit(e: Expense, user: Option<string>) {
    ViewerId(user) in e.splitBetween
  }

  /** `expense.paid_by === user?.id` (never true without a signed-in user). */
  predicate PaidByViewer(e: Expense, user: Option<string>) {
    user.Some? && e.paidBy == user.value
  }

  /** The change one expense makes to `totalOwed`; the per-head share
      `amount / split_between.length` is only formed when the viewer's id is in
      the split, so the divisor is at least 1. */
  function Contribution(e: Expense, user: Option<string>): real {
    if InSplit(e, user) then
      var n := |e.splitBetween|;
      var splitAmount := e.amount / n as real;
      if PaidByViewer(e, user) then -(splitAmount * (n - 1) as real) else splitAmount
    else 0.0
  }

  function TotalOwed(es: seq<Expense>, user: Option<string>): real
    decreases |es|
  {
    if es == [] then 0.0 else TotalOwed(es[..|es| - 1], user) + Contribution(es[|es| - 1], user)
  }

  function TotalSpent(es: seq<Expense>, user: Option<string>): real
    decreases |es|
  {
    if es == [] then 0.0
    else TotalSpent(es[..|es| - 1], user) + (if PaidByViewer(es[|es| - 1], user) then es[|es| - 1].amount else 0.0)
  }

  datatype Balances = Balances(totalOwed: real, totalSpent: real, totalTrip: real)

  /** `calculateBalances`: one pass over the selected trip's expenses. */
  method CalculateBalances(selectedTrip: Option<Trip>, expenses: map<string, seq<Expense>>, user: Option<string>)
    returns (b: Balances)
    ensures var es := TripExpenses(selectedTrip, expenses);
            b == Balances(TotalOwed(es, user), TotalSpent(es, user), TripTotal(es))
  {
    var totalOwed, totalSpent, totalTrip := 0.0, 0.0, 0.0;
    var tripExpenses := TripExpenses(selectedTrip, expenses);
    var i := 0;
    while i < |tripExpenses|
      invariant 0 <= i <= |tripExpenses|
      invariant totalOwed == TotalOwed(tripExpenses[..i], user)
      invariant totalSpent == TotalSpent(tripExpenses[..i], user)
      invariant totalTrip == TripTotal(tripExpenses[..i])
    {
      var expense := tripExpenses[i];
      var n := |expense.splitBetween|;
      totalTrip := totalTrip + expense.amount;
      if user.Some? && expense.paidBy == user.value {
        totalSpent := totalSpent + expense.amount;
      }
      if ViewerId(user) in expense.splitBetween {
        var splitAmount := expense.amount / n as real;
        if user.Some? && expense.paidBy == user.value {
          totalOwed := totalOwed - splitAmount * (n - 1) as real;
        } else {
          totalOwed := totalOwed + splitAmount;
        }
      }
      assert tripExpenses[..i + 1][..i] == tripExpenses[..i];
      i := i + 1;
    }
    assert tripExpenses[..i] == tripExpenses;
    b := Balances(totalOwed, totalSpent, totalTrip);
  }

  /** The owed line of the card. */
  function OwedLine(b: Balances): BalanceLabel.OwedLabel {
    BalanceLabel.LabelFor(b.totalOwed)
  }

  /** An expense whose split does not hold the viewer leaves `totalOwed`
      unchanged, even when the viewer paid it. */
  lemma {:induction false} OutsideEverySplitOwesNothing(es: seq<Expense>, user: Option<string>)
    requires forall k :: 0 <= k < |es| ==> ViewerId(user) !in es[k].splitBetween
    ensures TotalOwed(es, user) == 0.0
    decreases |es|
  {
    if es != [] {
      OutsideEverySplitOwesNothing(es[..|es| - 1], user);
    }
  }

  /** A viewer in the split who paid is owed everyone else's share; one who did
      not pay owes one share. */
  lemma SplitShares(e: Expense, user: Option<string>)
    requires InSplit(e, user)
    ensures |e.splitBetween| >= 1
    ensures PaidByViewer(e, user) ==> Contribution(e, user) == -(e.amount * (|e.splitBetween| - 1) as real / |e.splitBetween| as real)
    ensures !PaidByViewer(e, user) ==> Contribution(e, user) * |e.splitBetween| as real == e.amount
  {
  }

  /** A split member who did not pay owes one per-head share. */
  lemma NonPayerShare(e: Expense, user: Option<string>)
    requires InSplit(e, user) && !PaidByViewer(e, user)
    ensures Contribution(e, user) == e.amount / |e.splitBetween| as real
  {
  }

  /** A viewer who paid every expense never owes, when amounts are non-negative. */
  lemma {:induction false} PayerOfEverythingNeverOwes(es: seq<Expense>, user: Option<string>)
    requires forall k :: 0 <= k < |es| ==> PaidByViewer(es[k], user) && es[k].amount >= 0.0
    ensures TotalOwed(es, user) <= 0.0
    decreases |es|
  {
    if es != [] {
      var e := es[|es| - 1];
      PayerOfEverythingNeverOwes(es[..|es| - 1], user);
      if InSplit(e, user) {
        var n := |e.splitBetween|;
        assert e.amount / n as real >= 0.0;
        assert (e.amount / n as real) * (n - 1) as real >= 0.0;
      }
    }
  }

  /** `k`, how often `x` occurs in `s`. */
  function Occurrences(s: seq<string>, x: string): nat
    decreases |s|
  {
    if s == [] then 0 else Occurrences(s[..|s| - 1], x) + (if s[|s| - 1] == x then 1 else 0)
  }

  /** The owed contributions of one expense, taking each entry of `members` in
      turn as the viewer. */
  function OwedAcross(e: Expense, members: seq<string>): real
    decreases |members|
  {
    if members == [] then 0.0
    else OwedAcross(e, members[..|members| - 1]) + Contribution(e, Some(members[|members| - 1]))
  }

  /** `members` tallied at `atPayer` for each occurrence of the payer and at
      `other` for every other entry. */
  function Tally(members: seq<string>, payer: string, atPayer: real, other: real): real
    decreases |members|
  {
    if members == [] then 0.0
    else Tally(members[..|members| - 1], payer, atPayer, other) + (if members[|members| - 1] == payer then atPayer else other)
  }

  lemma {:induction false} TallyCount(members: seq<string>, payer: string, atPayer: real, other: real)
    ensures Tally(members, payer, atPayer, other)
            == Occurrences(members, payer) as real * atPayer + (|members| - Occurrences(members, payer)) as real * other
    decreases |members|
  {
    if members != [] {
      var rest := members[..|members| - 1];
      TallyCount(rest, payer, atPayer, other);
      var o := Occurrences(rest, payer) as real;
      var r := |rest| as real;
      assert (o + 1.0) * atPayer == o * atPayer + atPayer;
      assert (r + 1.0 - o) * other == (r - o) * other + other;
    }
  }

  /** Summed over viewers who are all in the split, the contributions tally the
      payer's credit once per occurrence of the payer and one per-head share
      for every other entry. */
  lemma {:induction false} OwedAcrossTally(e: Expense, members: seq<string>)
    requires forall k :: 0 <= k < |members| ==> members[k] in e.splitBetween
    requires e.paidBy in e.splitBetween
    ensures OwedAcross(e, members)
            == Tally(members, e.paidBy, Contribution(e, Some(e.paidBy)), e.amount / |e.splitBetween| as real)
    decreases |members|
  {
    if members != [] {
      OwedAcrossTally(e, members[..|members| - 1]);
      assert members[|members| - 1] in e.splitBetween;
    }
  }

  lemma {:induction false} OccurrencesOfDistinct(s: seq<string>, x: string)
    requires Distinct(s)
    ensures Occurrences(s, x) == (if x in s then 1 else 0)
    decreases |s|
  {
    if s != [] {
      var rest := s[..|s| - 1];
      assert Distinct(rest);
      OccurrencesOfDistinct(rest, x);
      assert s == rest + [s[|s| - 1]];
      if s[|s| - 1] == x {
        assert x !in rest by {
          forall k | 0 <= k < |rest| ensures rest[k] != x {
            assert rest[k] == s[k];
          }
        }
      }
    }
  }

  /** For one expense whose payer is in a split without repeated ids, what the
      split members owe, summed over every member, is zero: the payer is owed
      exactly what the others owe. */
  lemma ZeroSumOverSplit(e: Expense)
    requires e.paidBy in e.splitBetween
    requires Distinct(e.splitBetween)
    ensures OwedAcross(e, e.splitBetween) == 0.0
  {
    OwedAcrossTally(e, e.splitBetween);
    OccurrencesOfDistinct(e.splitBetween, e.paidBy);
    var n := |e.splitBetween| as real;
    var share := e.amount / n;
    TallyCount(e.splitBetween, e.paidBy, Contribution(e, Some(e.paidBy)), share);
    assert Contribution(e, Some(e.paidBy)) == -(share * (n - 1.0));
  }

  /** When the payer's id appears twice in the split (the expense form can
      produce this), the shares no longer cancel: 90 split [p, p, q] paid by p
      sums to -90 over the three entries. */
  lemma RepeatedPayerBreaksZeroSum()
    ensures var e := Expense(1, "t", "X", 90.0, "FOOD", "p", ["p", "p", "q"], None, "Trip", "");
            OwedAcross(e, e.splitBetween) == -90.0
  {
    var e := Expense(1, "t", "X", 90.0, "FOOD", "p", ["p", "p", "q"], None, "Trip", "");
    OwedAcrossTally(e, e.splitBetween);
    var s := e.splitBetween;
    assert Contribution(e, Some("p")) == -60.0;
    assert s[..2] == ["p", "p"];
    assert s[..2][..1] == ["p"];
    assert s[..2][..1][..0] == [];
    assert Tally(s[..2][..1], "p", -60.0, 30.0) == -60.0;
    assert Tally(s[..2], "p", -60.0, 30.0) == -120.0;
    assert Tally(s, "p", -60.0, 30.0) == -90.0;
  }
}
