/** The detailed expense view (frontend/src/components/TripExpensesDetails.tsx):
    the percentage-share balance calculator, the user lookup used for avatars
    and the name capitaliser. */
module TripExpensesDetails {
  import opened Common
  import opened Domain
  import BalanceLabel

  /** `expense.percentages || {}` as an entry list. */
  function PercentEntries(e: Expense): Shares {
    if e.percentages.Some? then e.percentages.value else []
  }

  /** `percentageMap[userId] || 0`: the first entry under `id`, or 0. */
  function ShareOf(m: Shares, id: string): (p: real)
    ensures (forall k :: 0 <= k < |m| ==> m[k].0 != id) ==> p == 0.0
    ensures p != 0.0 ==> exists k :: 0 <= k < |m| && m[k].0 == id && m[k].1 == p
  {
    if m == [] then 0.0 else if m[0].0 == id then m[0].1 else ShareOf(m[1..], id)
  }

  /** With an entry under `id`, the share is the value of the first such
      entry. */
  lemma {:induction false} ShareOfFirstEntry(m: Shares, id: string, k: int)
    requires 0 <= k < |m| && m[k].0 == id
    requires forall j :: 0 <= j < k ==> m[j].0 != id
    ensures ShareOf(m, id) == m[k].1
    decreases k
  {
    if k > 0 {
      assert m[1..][k - 1] == m[k];
      forall j | 0 <= j < k - 1 ensures m[1..][j].0 != id {
        assert m[1..][j] == m[j + 1];
      }
      ShareOfFirstEntry(m[1..], id, k - 1);
    }
  }

  /** The sum of the percentages of every entry whose key is not `viewer`. */
  function OthersPercent(m: Shares, viewer: string): real
    decreases |m|
  {
    if m == [] then 0.0
    else OthersPercent(m[..|m| - 1], viewer) + (if m[|m| - 1].0 != viewer then m[|m| - 1].1 else 0.0)
  }

  /** `Object.entries(m).filter(([id]) => id !== viewer).reduce((sum, [, p]) => sum + amount * p / 100, 0)` */
  function OthersOwe(amount: real, m: Shares, viewer: string): real
    decreases |m|
  {
    if m == [] then 0.0
    else OthersOwe(amount, m[..|m| - 1], viewer) + (if m[|m| - 1].0 != viewer then amount * m[|m| - 1].1 / 100.0 else 0.0)
  }

  /** What the others owe the payer is the amount times their combined percentage. */
  lemma {:induction false} OthersOweIsOthersShare(amount: real, m: Shares, viewer: string)
    ensures OthersOwe(amount, m, viewer) == amount * OthersPercent(m, viewer) / 100.0
    decreases |m|
  {
    if m != [] {
      var m' := m[..|m| - 1];
      OthersOweIsOthersShare(amount, m', viewer);
      var p := if m[|m| - 1].0 != viewer then m[|m| - 1].1 else 0.0;
      assert amount * (OthersPercent(m', viewer) + p) / 100.0
          == amount * OthersPercent(m', viewer) / 100.0 + amount * p / 100.0;
    }
  }

  /** The change one expense makes to `totalOwed` for `viewer`. */
  function Contribution(e: Expense, viewer: string): real {
    var m := PercentEntries(e);
    if e.paidBy == viewer then -OthersOwe(e.amount, m, viewer)
    else e.amount * ShareOf(m, viewer) / 100.0
  }

  function TotalOwed(es: seq<Expense>, viewer: string): real
    decreases |es|
  {
    if es == [] then 0.0 else TotalOwed(es[..|es| - 1], viewer) + Contribution(es[|es| - 1], viewer)
  }

  function TotalSpent(es: seq<Expense>, viewer: string): real
    decreases |es|
  {
    if es == [] then 0.0
    else TotalSpent(es[..|es| - 1], viewer) + (if es[|es| - 1].paidBy == viewer then es[|es| - 1].amount else 0.0)
  }

  /** The three running totals `calculateBalances` returns (before `toFixed(2)`). */
  datatype Balances = Balances(totalOwed: real, totalSpent: real, totalTrip: real)

  /** `calculateBalances`: one pass over the selected trip's expenses. */
  method CalculateBalances(selectedTrip: Option<Trip>, expenses: map<string, seq<Expense>>, user: Option<string>)
    returns (b: Balances)
    ensures var es := TripExpenses(selectedTrip, expenses);
            var v := ViewerId(user);
            b == Balances(TotalOwed(es, v), TotalSpent(es, v), TripTotal(es))
  {
    var totalOwed, totalSpent, totalTrip := 0.0, 0.0, 0.0;
    var tripExpenses := TripExpenses(selectedTrip, expenses);
    var userId := ViewerId(user);
    var i := 0;
    while i < |tripExpenses|
      invariant 0 <= i <= |tripExpenses|
      invariant totalOwed == TotalOwed(tripExpenses[..i], userId)
      invariant totalSpent == TotalSpent(tripExpenses[..i], userId)
      invariant totalTrip == TripTotal(tripExpenses[..i])
    {
      var expense := tripExpenses[i];
      totalTrip := totalTrip + expense.amount;
      var percentageMap := PercentEntries(expense);
      var userSharePercent := ShareOf(percentageMap, userId);
      var userShareAmount := expense.amount * userSharePercent / 100.0;
      if expense.paidBy == userId {
        totalSpent := totalSpent + expense.amount;
        var othersOwe := OthersOwe(expense.amount, percentageMap, userId);
        totalOwed := totalOwed - othersOwe;
      } else {
        totalOwed := totalOwed + userShareAmount;
      }
      assert tripExpenses[..i + 1][..i] == tripExpenses[..i];
      i := i + 1;
    }
    assert tripExpenses[..i] == tripExpenses;
    b := Balances(totalOwed, totalSpent, totalTrip);
  }

  /** The owed line of this view. */
  function OwedLine(b: Balances): BalanceLabel.OwedLabel {
    BalanceLabel.LabelFor(b.totalOwed)
  }

  /** The expenses the viewer paid, in order. */
  function PaidBy(es: seq<Expense>, viewer: string): seq<Expense> {
    Filter(es, (e: Expense) => e.paidBy == viewer)
  }

  /** `totalSpent` is the trip total of the expenses the viewer paid. */
  lemma {:induction false} TotalSpentIsTotalOfPaid(es: seq<Expense>, viewer: string)
    ensures TotalSpent(es, viewer) == TripTotal(PaidBy(es, viewer))
    decreases |es|
  {
    if es != [] {
      var last := es[|es| - 1];
      TotalSpentIsTotalOfPaid(es[..|es| - 1], viewer);
      assert es == es[..|es| - 1] + [last];
      FilterConcat(es[..|es| - 1], [last], (e: Expense) => e.paidBy == viewer);
      assert Filter([last], (e: Expense) => e.paidBy == viewer) == if last.paidBy == viewer then [last] else [];
      TripTotalConcat(PaidBy(es[..|es| - 1], viewer), if last.paidBy == viewer then [last] else []);
      assert TripTotal([last]) == last.amount by {
        assert [last][..0] == [];
      }
    }
  }

  /** An expense the viewer paid lowers what they owe by the others' combined
      share of its amount. */
  lemma PayerIsOwedOthersShares(e: Expense, viewer: string)
    requires e.paidBy == viewer
    ensures Contribution(e, viewer) == -(e.amount * OthersPercent(PercentEntries(e), viewer) / 100.0)
  {
    OthersOweIsOthersShare(e.amount, PercentEntries(e), viewer);
  }

  lemma {:induction false} OthersPercentIgnoresOwnEntry(m: Shares, viewer: string, p: real)
    ensures OthersPercent(m + [(viewer, p)], viewer) == OthersPercent(m, viewer)
  {
    assert (m + [(viewer, p)])[..|m|] == m;
  }

  /** The payer's own percentage plays no part in what they are owed: adding an
      entry for the payer changes nothing. */
  lemma PayerOwnShareIgnored(e: Expense, m: Shares, p: real)
    requires e.percentages == Some(m)
    ensures Contribution(e.(percentages := Some(m + [(e.paidBy, p)])), e.paidBy) == Contribution(e, e.paidBy)
  {
    var e' := e.(percentages := Some(m + [(e.paidBy, p)]));
    PayerIsOwedOthersShares(e, e.paidBy);
    PayerIsOwedOthersShares(e', e.paidBy);
    OthersPercentIgnoresOwnEntry(m, e.paidBy, p);
  }

  /** An expense someone else paid raises what the viewer owes by the viewer's
      percentage of its amount; with no map, or no entry for the viewer, by 0. */
  lemma NonPayerOwesOwnShare(e: Expense, viewer: string)
    requires e.paidBy != viewer
    ensures Contribution(e, viewer) == e.amount * ShareOf(PercentEntries(e), viewer) / 100.0
    ensures e.percentages.None? ==> Contribution(e, viewer) == 0.0
    ensures (forall k :: 0 <= k < |PercentEntries(e)| ==> PercentEntries(e)[k].0 != viewer) ==> Contribution(e, viewer) == 0.0
  {
  }

  /** Expenses without a percentage map leave `totalOwed` at 0, while the trip
      total still counts all of them. */
  lemma {:induction false} NoPercentagesOweNothing(es: seq<Expense>, viewer: string)
    requires forall k :: 0 <= k < |es| ==> es[k].percentages.None?
    ensures TotalOwed(es, viewer) == 0.0
    decreases |es|
  {
    if es != [] {
      NoPercentagesOweNothing(es[..|es| - 1], viewer);
    }
  }

  /** A viewer who paid every expense, where every percentage is non-negative
      and every amount is non-negative, never owes: `totalOwed <= 0`. */
  lemma {:induction false} PayerOfEverythingNeverOwes(es: seq<Expense>, viewer: string)
    requires forall k :: 0 <= k < |es| ==> es[k].paidBy == viewer && es[k].amount >= 0.0
    requires forall k, j :: 0 <= k < |es| && 0 <= j < |PercentEntries(es[k])| ==> PercentEntries(es[k])[j].1 >= 0.0
    ensures TotalOwed(es, viewer) <= 0.0
    decreases |es|
  {
    if es != [] {
      var e := es[|es| - 1];
      PayerOfEverythingNeverOwes(es[..|es| - 1], viewer);
      OthersPercentNonNegative(PercentEntries(e), viewer);
      PayerIsOwedOthersShares(e, viewer);
    }
  }

  lemma {:induction false} OthersPercentNonNegative(m: Shares, viewer: string)
    requires forall j :: 0 <= j < |m| ==> m[j].1 >= 0.0
    ensures OthersPercent(m, viewer) >= 0.0
    decreases |m|
  {
    if m != [] {
      OthersPercentNonNegative(m[..|m| - 1], viewer);
    }
  }

  /** A viewer who neither paid nor holds a percentage entry in any expense
      owes nothing and spent nothing. */
  lemma {:induction false} UninvolvedViewer(es: seq<Expense>, viewer: string)
    requires forall k :: 0 <= k < |es| ==> es[k].paidBy != viewer
    requires forall k, j :: 0 <= k < |es| && 0 <= j < |PercentEntries(es[k])| ==> PercentEntries(es[k])[j].0 != viewer
    ensures TotalOwed(es, viewer) == 0.0 && TotalSpent(es, viewer) == 0.0
    decreases |es|
  {
    if es != [] {
      UninvolvedViewer(es[..|es| - 1], viewer);
      NonPayerOwesOwnShare(es[|es| - 1], viewer);
    }
  }

  /** The worked example: A = 100 paid by u1 with {u1: 50, u2: 50} and B = 50
      paid by u2 with {u1: 100}; for u1 the view shows spent 100, trip 150 and
      "All settled". */
  lemma SettledExample()
    ensures var a := Expense(1, "t", "A", 100.0, "FOOD", "u1", ["u1", "u2"], Some([("u1", 50.0), ("u2", 50.0)]), "Trip", "");
            var b := Expense(2, "t", "B", 50.0, "FOOD", "u2", ["u1"], Some([("u1", 100.0)]), "Trip", "");
            var es := [a, b];
            TotalSpent(es, "u1") == 100.0 && TripTotal(es) == 150.0 && TotalOwed(es, "u1") == 0.0
            && BalanceLabel.LabelFor(TotalOwed(es, "u1")) == BalanceLabel.AllSettled
  {
    var a := Expense(1, "t", "A", 100.0, "FOOD", "u1", ["u1", "u2"], Some([("u1", 50.0), ("u2", 50.0)]), "Trip", "");
    var b := Expense(2, "t", "B", 50.0, "FOOD", "u2", ["u1"], Some([("u1", 100.0)]), "Trip", "");
    var es := [a, b];
    assert es[..1] == [a];
    assert [a][..0] == [];
    var ma: Shares := [("u1", 50.0), ("u2", 50.0)];
    assert ma[..1] == [("u1", 50.0)];
    assert ma[..1][..0] == [];
    assert OthersOwe(100.0, ma, "u1") == 50.0;
    assert Contribution(a, "u1") == -50.0;
    assert Contribution(b, "u1") == 50.0;
    assert TotalOwed([a], "u1") == -50.0;
    assert TotalSpent([a], "u1") == 100.0;
    assert TripTotal([a]) == 100.0;
    assert TotalOwed(es, "u1") == TotalOwed([a], "u1") + Contribution(b, "u1");
    assert TotalSpent(es, "u1") == TotalSpent([a], "u1") + 0.0;
    assert TripTotal(es) == TripTotal([a]) + 50.0;
  }

  /** `findUser`: the first directory entry with the id, or the placeholder
      `{firstName: 'Unknown', imageUrl: ''}`. */
  datatype FoundUser = Known(user: UserProfile) | Unknown

  function FindUser(users: Option<seq<UserProfile>>, id: string): (r: FoundUser)
    ensures r.Known? ==> users.Some? && r.user in users.value && r.user.id == id
    ensures r.Unknown? <==> users.None? || forall k :: 0 <= k < |users.value| ==> users.value[k].id != id
    ensures r.Known? ==> exists k :: 0 <= k < |users.value| && users.value[k] == r.user
                                     && forall j :: 0 <= j < k ==> users.value[j].id != id
  {
    if users.None? then Unknown else FindIn(users.value, id)
  }

  function FindIn(us: seq<UserProfile>, id: string): (r: FoundUser)
    ensures r.Known? ==> r.user.id == id && exists k :: 0 <= k < |us| && us[k] == r.user
                                                 && forall j :: 0 <= j < k ==> us[j].id != id
    ensures r.Unknown? <==> forall k :: 0 <= k < |us| ==> us[k].id != id
  {
    if us == [] then Unknown
    else if us[0].id == id then Known(us[0])
    else
      var r := FindIn(us[1..], id);
      assert r.Known? ==> exists k :: 0 <= k < |us| && us[k] == r.user && forall j :: 0 <= j < k ==> us[j].id != id by {
        if r.Known? {
          var k :| 0 <= k < |us[1..]| && us[1..][k] == r.user && forall j :: 0 <= j < k ==> us[1..][j].id != id;
          assert us[k + 1] == r.user;
          forall j | 0 <= j < k + 1 ensures us[j].id != id {
            if j > 0 { assert us[j] == us[1..][j - 1]; }
          }
        }
      }
      assert r.Unknown? <==> forall k :: 0 <= k < |us| ==> us[k].id != id by {
        if r.Unknown? {
          forall k | 0 <= k < |us| ensures us[k].id != id {
            if k > 0 { assert us[k] == us[1..][k - 1]; }
          }
        }
      }
      r
  }

  /** `capitalizeFirstLetter`: upper-cases the first letter of a non-empty name;
      a null or empty name gives `undefined`. */
  function Capitalize(name: Option<string>): (r: Option<string>)
    ensures r.Some? <==> name.Some? && name.value != ""
    ensures r.Some? ==> |r.value| == |name.value| && r.value[1..] == name.value[1..]
                        && r.value[0] == UpperChar(name.value[0])
  {
    if name.Some? && name.value != "" then Some([UpperChar(name.value[0])] + name.value[1..]) else None
  }

  /** Capitalising a capitalised name changes nothing. */
  lemma CapitalizeIdempotent(name: Option<string>)
    requires Capitalize(name).Some?
    ensures Capitalize(Capitalize(name)) == Capitalize(name)
  {
    var c := name.value[0];
    assert UpperChar(UpperChar(c)) == UpperChar(c);
  }
}
