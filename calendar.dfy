/** The twelve month names both photo-of-the-week screens list, and `indexOf` over them. */
module Calendar {

  const Months: seq<string> := [
    "January", "February", "March", "April", "May", "June",
    "July", "August", "September", "October", "November", "December"]

  /** `xs.indexOf(x)`: the first position holding `x`, or -1. */
  function IndexOf(xs: seq<string>, x: string): (i: int)
    ensures -1 <= i < |xs|
    ensures i == -1 <==> x !in xs
    ensures i >= 0 ==> xs[i] == x && x !in xs[..i]
  {
    if |xs| == 0 then -1
    else if xs[0] == x then 0
    else
      var j := IndexOf(xs[1..], x);
      assert j >= 0 ==> xs[..j + 1] == [xs[0]] + xs[1..][..j];
      if j == -1 then -1 else j + 1
  }

  /** No name appears twice. */
  predicate Distinct(ms: seq<string>) {
    forall i, j :: 0 <= i < j < |ms| ==> ms[i] != ms[j]
  }

  /** There are twelve month names and no name appears twice. */
  lemma MonthsDistinct()
    ensures |Months| == 12 && Distinct(Months)
  {
  }

  /** In a list without repeats, a name and its index determine each other. */
  lemma IndexOfDistinct(ms: seq<string>, i: int)
    requires Distinct(ms) && 0 <= i < |ms|
    ensures IndexOf(ms, ms[i]) == i
  {
  }
}
