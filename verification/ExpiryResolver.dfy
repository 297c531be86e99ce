/** Choosing the expiry to trade (app/expiry_resolver.py): two phases against one definition. */
module ExpiryResolver {
  import opened Nums
  import opened Storage

  datatype Resolved = NoEligible | Expiry(day: int)

  /** Dates are day numbers. */
  datatype Rules = Rules(today: int, pastCutoff: bool, minDays: int)

  /** Not gone, not skipped on its own last day, and far enough away. */
  predicate Eligible(r: Rules, e: int) {
    e >= r.today && !(e == r.today && r.pastCutoff) && e - r.today >= r.minDays
  }

  function FirstFar(r: Rules, s: seq<int>): Option<int> {
    if s == [] then None else if s[0] - r.today >= r.minDays then Some(s[0]) else FirstFar(r, s[1..])
  }

  function Resolve(r: Rules, expiries: set<int>): Resolved {
    var future := Ascending(set e | e in expiries && e >= r.today);
    if future == [] then NoEligible
    else if future[0] == r.today && r.pastCutoff && |future| < 2 then NoEligible
    else
      var selected := if future[0] == r.today && r.pastCutoff then future[1] else future[0];
      if selected - r.today >= r.minDays then Expiry(selected)
      else
        var far := FirstFar(r, future);
        if far.Some? then Expiry(far.value) else NoEligible
  }

  /** `i` is the first far enough date of the list. */
  predicate FirstAt(r: Rules, s: seq<int>, i: nat) {
    i < |s| && s[i] - r.today >= r.minDays && forall j :: 0 <= j < i ==> s[j] - r.today < r.minDays
  }

  lemma {:induction false} FirstFarIs(r: Rules, s: seq<int>) returns (i: nat)
    ensures FirstFar(r, s) == None ==> forall j :: 0 <= j < |s| ==> s[j] - r.today < r.minDays
    ensures FirstFar(r, s).Some? ==> FirstAt(r, s, i) && s[i] == FirstFar(r, s).value
  {
    i := 0;
    if s != [] && s[0] - r.today < r.minDays {
      var k := FirstFarIs(r, s[1..]);
      assert forall j :: 0 < j < |s| ==> s[j] == s[1..][j - 1];
      i := k + 1;
    }
  }

  /** The result is the least eligible expiry, and there is none exactly when no expiry is
      eligible. */
  lemma LeastEligible(r: Rules, expiries: set<int>)
    ensures match Resolve(r, expiries)
            case NoEligible => forall e :: e in expiries ==> !Eligible(r, e)
            case Expiry(d) => d in expiries && Eligible(r, d) && forall e :: e in expiries && Eligible(r, e) ==> d <= e
  {
    var ahead := set e | e in expiries && e >= r.today;
    var future := Ascending(ahead);
    AscendingSorts(ahead);
    var first := FirstFarIs(r, future);
    forall k | 0 <= k < |future|
      ensures future[k] in expiries && future[k] >= r.today
    {
      assert future[k] in future;
      assert future[k] in ahead;
    }
    forall e | e in expiries && Eligible(r, e)
      ensures exists k :: 0 <= k < |future| && future[k] == e
    {
      assert e in future;
    }
  }
}
