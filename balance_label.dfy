/** The owed label both balance views render. The views format the owed total
    with `toFixed(2)` and test the sign of `parseFloat` of that text, so the
    label follows the total rounded to whole cents (half a cent rounds away
    from zero), not the exact total. */
module BalanceLabel {

  /** `Math.round`-style rounding of a non-negative number: half rounds up. */
  function RoundHalfUp(y: real): (n: int)
    ensures n as real - 0.5 <= y < n as real + 0.5
  {
    (y + 0.5).Floor
  }

  /** `parseFloat(x.toFixed(2))` expressed as a whole number of cents:
      `toFixed` rounds the magnitude and keeps the sign. */
  function Cents(x: real): (c: int)
    ensures c as real - 0.5 <= 100.0 * x <= c as real + 0.5
    ensures x >= 0.0 ==> c >= 0
    ensures x <= 0.0 ==> c <= 0
  {
    if x < 0.0 then -RoundHalfUp(-x * 100.0) else RoundHalfUp(x * 100.0)
  }

  /** What the owed line says; the amounts are in cents. */
  datatype OwedLabel = YouOwe(cents: nat) | PeopleOweYou(cents: nat) | AllSettled

  /** `owed > 0 ? "You owe …" : owed < 0 ? "People owe you |owed|" : "All settled"`
      on the two-decimal value. */
  function LabelFor(owed: real): (l: OwedLabel)
    ensures l.YouOwe? <==> owed >= 0.005
    ensures l.PeopleOweYou? <==> owed <= -0.005
    ensures l.AllSettled? <==> -0.005 < owed < 0.005
    ensures l.YouOwe? ==> l.cents > 0 && -0.5 <= l.cents as real - 100.0 * owed <= 0.5
    ensures l.PeopleOweYou? ==> l.cents > 0 && -0.5 <= l.cents as real + 100.0 * owed <= 0.5
  {
    var c := Cents(owed);
    if c > 0 then YouOwe(c) else if c < 0 then PeopleOweYou(-c) else AllSettled
  }

  /** For a total that is already a whole number of cents the label follows
      its exact sign. */
  lemma {:induction false} LabelOfWholeCents(c: int)
    ensures LabelFor(c as real / 100.0) == (if c > 0 then YouOwe(c) else if c < 0 then PeopleOweYou(-c) else AllSettled)
  {
    var x := c as real / 100.0;
    assert 100.0 * x == c as real;
    var k := Cents(x);
    assert k == c;
  }
}
