/**
  The smooth weighted round robin of a route's dispatcher.

  The values come first: one pick raises every current weight, takes the first largest and
  charges it the total. Then the class whose loop does this on the endpoint objects.
*/
module RoundRobin {
  import opened Prelude

  function Sum(s: seq<int>): int {
    if s == [] then 0 else Sum(s[..|s| - 1]) + s[|s| - 1]
  }

  /** The first index of the largest element, as the loop finds it. */
  function FirstMax(s: seq<int>): (m: nat)
    requires s != []
    ensures m < |s|
  {
    if |s| == 1 then 0
    else
      var m := FirstMax(s[..|s| - 1]);
      if s[|s| - 1] > s[m] then |s| - 1 else m
  }

  lemma {:induction false} FirstMaxMeaning(s: seq<int>)
    requires s != []
    ensures forall j | 0 <= j < |s| :: s[j] <= s[FirstMax(s)]
    ensures forall j | 0 <= j < FirstMax(s) :: s[j] < s[FirstMax(s)]
  {
    if |s| > 1 {
      var init := s[..|s| - 1];
      FirstMaxMeaning(init);
      assert forall j | 0 <= j < |init| :: init[j] == s[j];
    }
  }

  function Raised(weights: seq<int>, current: seq<int>): seq<int>
    requires |weights| == |current|
  {
    seq(|weights|, i requires 0 <= i < |weights| => current[i] + weights[i])
  }

  function Picked(weights: seq<int>, current: seq<int>): (k: nat)
    requires |weights| == |current| > 0
    ensures k < |weights|
  {
    FirstMax(Raised(weights, current))
  }

  /** Every weight is raised, then endpoint `k` is charged the total. */
  function ChargedAt(weights: seq<int>, current: seq<int>, k: nat): (next: seq<int>)
    requires |weights| == |current| && k < |weights|
    ensures |next| == |weights|
  {
    Raised(weights, current)[k := current[k] + weights[k] - Sum(weights)]
  }

  function Charged(weights: seq<int>, current: seq<int>): (next: seq<int>)
    requires |weights| == |current| > 0
    ensures |next| == |weights|
  {
    ChargedAt(weights, current, Picked(weights, current))
  }

  /** The current weights and the number of picks of each endpoint after `n` picks from the start. */
  datatype Tally = Tally(current: seq<int>, picks: seq<int>)

  function Zeros(n: nat): (z: seq<int>)
    ensures |z| == n && forall i | 0 <= i < n :: z[i] == 0
  {
    seq(n, _ => 0)
  }

  function After(weights: seq<int>, n: nat): (t: Tally)
    requires weights != []
    ensures |t.current| == |t.picks| == |weights|
  {
    if n == 0 then Tally(Zeros(|weights|), Zeros(|weights|))
    else
      var before := After(weights, n - 1);
      var k := Picked(weights, before.current);
      Tally(Charged(weights, before.current), before.picks[k := before.picks[k] + 1])
  }

  // --- Sums ---

  lemma {:induction false} SumUpdate(s: seq<int>, k: nat, v: int)
    requires k < |s|
    ensures Sum(s[k := v]) == Sum(s) - s[k] + v
  {
    var u := s[k := v];
    if k == |s| - 1 {
      assert u[..|u| - 1] == s[..|s| - 1];
    } else {
      assert u[..|u| - 1] == s[..|s| - 1][k := v];
      SumUpdate(s[..|s| - 1], k, v);
    }
  }

  /** Adding two sequences, and taking `total` off at index `k` if there is one, does the same to the sums. */
  lemma {:induction false} SumShifted(next: seq<int>, current: seq<int>, weights: seq<int>, k: nat, total: int)
    requires |next| == |current| == |weights|
    requires forall i | 0 <= i < |next| :: next[i] == current[i] + weights[i] - if i == k then total else 0
    ensures Sum(next) == Sum(current) + Sum(weights) - if k < |next| then total else 0
  {
    if next != [] {
      var n := |next| - 1;
      SumShifted(next[..n], current[..n], weights[..n], k, total);
    }
  }

  lemma {:induction false} SumBounded(s: seq<int>, bound: int)
    requires forall i | 0 <= i < |s| :: s[i] <= bound
    ensures Sum(s) <= |s| * bound
  {
    if s != [] {
      SumBounded(s[..|s| - 1], bound);
      assert |s| * bound == (|s| - 1) * bound + bound;
    }
  }

  /** Non-negative numbers that add up to at most zero are all zero. */
  lemma {:induction false} SumZero(s: seq<int>)
    requires forall i | 0 <= i < |s| :: s[i] >= 0
    ensures Sum(s) >= 0
    ensures Sum(s) == 0 ==> forall i | 0 <= i < |s| :: s[i] == 0
  {
    if s != [] {
      var init := s[..|s| - 1];
      SumZero(init);
      if Sum(s) == 0 {
        forall i | 0 <= i < |s| ensures s[i] == 0 {
          assert i < |init| ==> init[i] == s[i];
        }
      }
    }
  }

  lemma {:induction false} SumOfZeros(n: nat)
    ensures Sum(Zeros(n)) == 0
  {
    if n > 0 {
      SumOfZeros(n - 1);
      assert Zeros(n)[..n - 1] == Zeros(n - 1);
    }
  }

  // --- One pick ---

  /** Charging any one endpoint the total undoes the raise in sum. */
  lemma ChargeKeepsSum(weights: seq<int>, current: seq<int>, k: nat)
    requires |weights| == |current| && k < |weights|
    ensures Sum(ChargedAt(weights, current, k)) == Sum(current)
  {
    SumShifted(ChargedAt(weights, current, k), current, weights, k, Sum(weights));
  }

  /** The endpoint that is picked has a positive raised weight, so it stays above minus the total. */
  lemma PickStaysAbove(weights: seq<int>, current: seq<int>)
    requires |weights| == |current| > 0 && Sum(weights) > 0 && Sum(current) == 0
    requires forall i | 0 <= i < |weights| :: weights[i] >= 0 && current[i] > -Sum(weights)
    ensures forall i | 0 <= i < |weights| :: Charged(weights, current)[i] > -Sum(weights)
  {
    SumShifted(Raised(weights, current), current, weights, |weights|, 0);
    var raised, k := Raised(weights, current), Picked(weights, current);
    FirstMaxMeaning(raised);
    if raised[k] <= 0 {
      SumBounded(raised, 0);
    }
  }

  // --- Any number of picks ---

  predicate Weighted(weights: seq<int>) {
    weights != [] && Sum(weights) > 0 && forall i | 0 <= i < |weights| :: weights[i] >= 0
  }

  lemma BalancedStep(weights: seq<int>, current: seq<int>, next: seq<int>)
    requires Weighted(weights) && |weights| == |current| && next == Charged(weights, current) && Sum(current) == 0
    requires forall i | 0 <= i < |weights| :: current[i] > -Sum(weights)
    ensures Sum(next) == 0
    ensures forall i | 0 <= i < |weights| :: next[i] > -Sum(weights)
  {
    ChargeKeepsSum(weights, current, Picked(weights, current));
    PickStaysAbove(weights, current);
  }

  /** After any number of picks the current weights add up to zero and stay above minus the total. */
  lemma {:induction false} Balanced(weights: seq<int>, n: nat)
    requires Weighted(weights)
    ensures Sum(After(weights, n).current) == 0
    ensures forall i | 0 <= i < |weights| :: After(weights, n).current[i] > -Sum(weights)
  {
    if n == 0 {
      SumOfZeros(|weights|);
    } else {
      Balanced(weights, n - 1);
      BalancedStep(weights, After(weights, n - 1).current, After(weights, n).current);
    }
  }

  /** A current weight is the endpoint's entitlement minus what its picks cost. */
  lemma {:induction false} Ledger(weights: seq<int>, n: nat, i: nat)
    requires weights != [] && i < |weights|
    ensures After(weights, n).current[i] == n * weights[i] - Sum(weights) * After(weights, n).picks[i]
  {
    if n > 0 {
      Ledger(weights, n - 1, i);
      var before := After(weights, n - 1);
      LedgerStep(weights, before, Picked(weights, before.current), n, i);
    }
  }

  lemma LedgerStep(weights: seq<int>, t: Tally, k: nat, n: nat, i: nat)
    requires |t.current| == |t.picks| == |weights| && k < |weights| && i < |weights|
    requires t.current[i] == (n - 1) * weights[i] - Sum(weights) * t.picks[i]
    ensures ChargedAt(weights, t.current, k)[i] == n * weights[i] - Sum(weights) * t.picks[k := t.picks[k] + 1][i]
  {
    Entry(n, weights[i], Sum(weights), t.picks[i]);
    if i == k {
      assert t.picks[k := t.picks[k] + 1][i] == t.picks[i] + 1;
      assert ChargedAt(weights, t.current, k)[i] == t.current[i] + weights[i] - Sum(weights);
    } else {
      assert t.picks[k := t.picks[k] + 1][i] == t.picks[i];
      assert ChargedAt(weights, t.current, k)[i] == t.current[i] + weights[i];
    }
  }

  lemma Entry(n: int, w: int, total: int, p: int)
    ensures (n - 1) * w - total * p + w == n * w - total * p
    ensures (n - 1) * w - total * p + w - total == n * w - total * (p + 1)
  {
    assert n * w == (n - 1) * w + w;
    assert total * (p + 1) == total * p + total;
  }

  lemma PickCounts(weights: seq<int>, n: nat)
    requires weights != [] && n > 0
    ensures Sum(After(weights, n).picks) == Sum(After(weights, n - 1).picks) + 1
  {
    var picks, k := After(weights, n - 1).picks, Picked(weights, After(weights, n - 1).current);
    assert After(weights, n).picks == picks[k := picks[k] + 1];
    SumUpdate(picks, k, picks[k] + 1);
  }

  lemma {:induction false} PicksAddUp(weights: seq<int>, n: nat)
    requires weights != []
    ensures Sum(After(weights, n).picks) == n
  {
    if n == 0 {
      SumOfZeros(|weights|);
    } else {
      PicksAddUp(weights, n - 1);
      PickCounts(weights, n);
    }
  }

  /** At no time is an endpoint a full pick ahead of its share. */
  lemma NeverAFullPickAhead(weights: seq<int>, n: nat, i: nat)
    requires Weighted(weights) && i < |weights|
    ensures Sum(weights) * After(weights, n).picks[i] < n * weights[i] + Sum(weights)
  {
    Balanced(weights, n);
    Ledger(weights, n, i);
  }

  lemma {:induction false} SumAtLeast(s: seq<int>, bound: int)
    requires forall i | 0 <= i < |s| :: s[i] >= bound
    ensures Sum(s) >= |s| * bound
  {
    if s != [] {
      SumAtLeast(s[..|s| - 1], bound);
      assert |s| * bound == (|s| - 1) * bound + bound;
    }
  }

  /** One element of a sequence of sum zero makes up for all the others. */
  lemma OthersMakeUp(s: seq<int>, i: nat, bound: int)
    requires i < |s| && Sum(s) == 0 && forall j | 0 <= j < |s| :: s[j] >= bound
    ensures s[i] <= -((|s| - 1) * bound)
  {
    SumUpdate(s, i, bound);
    SumAtLeast(s[i := bound], bound);
    assert |s| * bound == (|s| - 1) * bound + bound;
  }

  /** Nor is it ever far behind: the others can be at most just short of a pick ahead each. */
  lemma NeverFarBehind(weights: seq<int>, n: nat, i: nat)
    requires Weighted(weights) && i < |weights|
    ensures n * weights[i] - Sum(weights) * After(weights, n).picks[i] <= (|weights| - 1) * (Sum(weights) - 1)
  {
    Balanced(weights, n);
    Ledger(weights, n, i);
    OthersMakeUp(After(weights, n).current, i, 1 - Sum(weights));
    Negated(|weights| - 1, Sum(weights) - 1);
  }

  lemma Negated(a: int, b: int)
    ensures -(a * (0 - b)) == a * b
  {
  }

  /**
    Exact fairness: after each block of as many picks as the total weight, every endpoint has
    been picked exactly weight times per block, and all current weights are back at zero.
  */
  lemma BlocksAreExact(weights: seq<int>, blocks: nat)
    requires Weighted(weights)
    ensures var t := After(weights, blocks * Sum(weights));
            forall i | 0 <= i < |weights| :: t.current[i] == 0 && t.picks[i] == blocks * weights[i]
  {
    var n := blocks * Sum(weights);
    Balanced(weights, n);
    forall i | 0 <= i < |weights|
      ensures After(weights, n).current[i] == Sum(weights) * (blocks * weights[i] - After(weights, n).picks[i])
    {
      BlockLedger(weights, blocks, n, i);
    }
    AllBack(weights, After(weights, n), blocks, Sum(weights));
  }

  lemma BlockLedger(weights: seq<int>, blocks: nat, n: nat, i: nat)
    requires weights != [] && i < |weights| && n == blocks * Sum(weights)
    ensures After(weights, n).current[i] == Sum(weights) * (blocks * weights[i] - After(weights, n).picks[i])
  {
    Ledger(weights, n, i);
    Regroup(blocks, Sum(weights), weights[i], After(weights, n).picks[i]);
  }

  /** Multiples of the total above minus the total that add up to zero are all zero. */
  lemma AllBack(weights: seq<int>, t: Tally, blocks: nat, total: int)
    requires |t.current| == |t.picks| == |weights| && total > 0 && Sum(t.current) == 0
    requires forall i | 0 <= i < |weights| :: t.current[i] == total * (blocks * weights[i] - t.picks[i]) && t.current[i] > -total
    ensures forall i | 0 <= i < |weights| :: t.current[i] == 0 && t.picks[i] == blocks * weights[i]
  {
    forall i | 0 <= i < |weights| ensures t.current[i] >= 0 {
      NoMultipleBetween(total, blocks * weights[i] - t.picks[i]);
    }
    SumZero(t.current);
    forall i | 0 <= i < |weights| ensures t.picks[i] == blocks * weights[i] {
      assert t.current[i] == 0;
      NoFactorOfZero(total, blocks * weights[i] - t.picks[i]);
    }
  }

  lemma Regroup(b: int, t: int, w: int, p: int)
    ensures b * t * w - t * p == t * (b * w - p)
  {
    assert t * (b * w - p) == t * (b * w) - t * p;
    assert b * t * w == t * (b * w);
  }

  lemma NoMultipleBetween(t: int, d: int)
    requires t > 0 && t * d > -t
    ensures t * d >= 0
  {
    if d < 0 {
      NegativeMultiple(t, d);
    }
  }

  lemma {:induction false} NegativeMultiple(t: int, d: int)
    requires t > 0 && d < 0
    ensures t * d <= -t
    decreases -d
  {
    if d < -1 {
      NegativeMultiple(t, d + 1);
    }
    assert t * d == t * (d + 1) - t;
  }

  lemma NoFactorOfZero(t: int, d: int)
    requires t > 0 && t * d == 0
    ensures d == 0
  {
  }

  // --- The dispatcher's objects ---

  class Endpoint {
    const id: string
    const weight: int
    var currWeight: int

    constructor (id: string, weight: int)
      ensures this.id == id && this.weight == weight && currWeight == 0
    {
      this.id, this.weight, currWeight := id, weight, 0;
    }
  }

  function Weights(endpoints: seq<Endpoint>): (w: seq<int>)
    ensures |w| == |endpoints| && forall i | 0 <= i < |w| :: w[i] == endpoints[i].weight
  {
    seq(|endpoints|, i requires 0 <= i < |endpoints| => endpoints[i].weight)
  }

  predicate Distinct(endpoints: seq<Endpoint>) {
    forall i, j | 0 <= i < j < |endpoints| :: endpoints[i] != endpoints[j]
  }

  lemma FirstMaxUnique(s: seq<int>, m: nat)
    requires m < |s| && (forall j | 0 <= j < |s| :: s[j] <= s[m]) && (forall j | 0 <= j < m :: s[j] < s[m])
    ensures FirstMax(s) == m
  {
    FirstMaxMeaning(s);
    var f := FirstMax(s);
    assert s[f] <= s[m] && s[m] <= s[f];
  }

  lemma SumSnoc(s: seq<int>, i: nat)
    requires i < |s|
    ensures Sum(s[..i + 1]) == Sum(s[..i]) + s[i]
  {
    assert s[..i + 1][..i] == s[..i];
  }

  /** The loop of `weightRoundRobinDispatch`: raise every weight, find the first largest, add up the total. */
  method Raise(endpoints: seq<Endpoint>, ghost raised: seq<int>)
    returns (selected: Endpoint, totalWeight: int, ghost best: nat)
    requires endpoints != [] && Distinct(endpoints) && |raised| == |endpoints|
    requires forall i | 0 <= i < |endpoints| :: raised[i] == endpoints[i].currWeight + endpoints[i].weight
    modifies endpoints
    ensures totalWeight == Sum(Weights(endpoints))
    ensures best < |endpoints| && selected == endpoints[best]
    ensures forall j | 0 <= j < |endpoints| :: raised[j] <= raised[best]
    ensures forall j | 0 <= j < best :: raised[j] < raised[best]
    ensures forall j | 0 <= j < |endpoints| :: endpoints[j].currWeight == raised[j]
  {
    totalWeight, best, selected := 0, 0, endpoints[0];
    for i := 0 to |endpoints|
      invariant totalWeight == Sum(Weights(endpoints)[..i])
      invariant best < |endpoints| && selected == endpoints[best]
      invariant i > 0 ==> best < i
      invariant forall j | 0 <= j < i :: raised[j] <= raised[best]
      invariant forall j | 0 <= j < best :: raised[j] < raised[best]
      invariant forall j | 0 <= j < i :: endpoints[j].currWeight == raised[j]
      invariant forall j | i <= j < |endpoints| :: endpoints[j].currWeight == old(endpoints[j].currWeight)
    {
      var se := endpoints[i];
      se.currWeight := se.currWeight + se.weight;
      totalWeight := totalWeight + se.weight;
      SumSnoc(Weights(endpoints), i);
      if i == 0 || se.currWeight > selected.currWeight {
        selected := se;
        best := i;
      }
    }
    assert Weights(endpoints)[..|endpoints|] == Weights(endpoints);
  }

  /** One weighted pick from one list of endpoints. */
  method Pick(endpoints: seq<Endpoint>, ghost current: seq<int>) returns (selected: Endpoint)
    requires endpoints != [] && Distinct(endpoints) && |current| == |endpoints|
    requires forall i | 0 <= i < |endpoints| :: endpoints[i].currWeight == current[i]
    modifies endpoints
    ensures selected == endpoints[Picked(Weights(endpoints), current)]
    ensures forall i | 0 <= i < |endpoints| :: endpoints[i].currWeight == Charged(Weights(endpoints), current)[i]
  {
    var totalWeight: int;
    ghost var best;
    selected, totalWeight, best := Raise(endpoints, Raised(Weights(endpoints), current));
    FirstMaxUnique(Raised(Weights(endpoints), current), best);
    selected.currWeight := selected.currWeight - totalWeight;
  }

  /** The endpoint that the pick after `picks` picks takes. */
  function Chosen(endpoints: seq<Endpoint>, picks: nat): Endpoint
    requires endpoints != []
  {
    endpoints[Picked(Weights(endpoints), After(Weights(endpoints), picks).current)]
  }

  datatype State = Work | Busy | Hang | Shut | Other

  /** The endpoints are distinct objects and hold the weights that `picks` picks leave. */
  ghost predicate Tracks(endpoints: seq<Endpoint>, picks: nat)
    reads endpoints
  {
    && Distinct(endpoints)
    && (endpoints != [] ==>
          forall i | 0 <= i < |endpoints| :: endpoints[i].currWeight == After(Weights(endpoints), picks).current[i])
  }

  /** A list that has made no pick stays so when a new endpoint joins. */
  lemma StartsAtZero(endpoints: seq<Endpoint>, se: Endpoint)
    requires Tracks(endpoints, 0) && se !in endpoints && se.currWeight == 0
    ensures Tracks(endpoints + [se], 0)
  {
    var all := endpoints + [se];
    forall i | 0 <= i < |all| ensures all[i].currWeight == After(Weights(all), 0).current[i] {
      assert i < |endpoints| ==> all[i] == endpoints[i] && endpoints[i].currWeight == After(Weights(endpoints), 0).current[i];
    }
  }

  class Route {
    var endpoints1: seq<Endpoint>
    var endpoints2: seq<Endpoint>
    var endpoints3: seq<Endpoint>
    var endpoints4: seq<Endpoint>
    var endpoints5: map<string, Endpoint>

    constructor ()
      ensures endpoints1 == endpoints2 == endpoints3 == endpoints4 == [] && endpoints5 == map[]
    {
      endpoints1, endpoints2, endpoints3, endpoints4, endpoints5 := [], [], [], [], map[];
    }

    /** Working endpoints, or the busy ones when there is none; hung and shut ones never. */
    function Eligible(): seq<Endpoint>
      reads this
    {
      if endpoints1 != [] then endpoints1 else endpoints2
    }

    /** Takes the next pick from the eligible endpoints and changes no other endpoint. */
    method WeightRoundRobinDispatch(ghost picks: nat) returns (r: Option<Endpoint>)
      requires Tracks(Eligible(), picks)
      modifies Eligible()
      ensures r.None? <==> endpoints1 == [] && endpoints2 == []
      ensures r.Some? ==> r.value in if endpoints1 != [] then endpoints1 else endpoints2
      ensures Eligible() != [] ==> r == Some(Chosen(Eligible(), picks)) && Tracks(Eligible(), picks + 1)
    {
      if |endpoints1| > 0 {
        var selected := Pick(endpoints1, After(Weights(endpoints1), picks).current);
        return Some(selected);
      }
      if |endpoints2| > 0 {
        var selected := Pick(endpoints2, After(Weights(endpoints2), picks).current);
        return Some(selected);
      }
      r := None;
    }

    /**
      An endpoint joins the list of its state and the index of all endpoints. When it is new and
      its list has made no pick, the list still tracks zero picks.
    */
    method AddServiceEndpoint(se: Endpoint, state: State)
      modifies this
      ensures se !in old(endpoints1) && se.currWeight == 0 && old(Tracks(endpoints1, 0)) ==> Tracks(endpoints1, 0)
      ensures se !in old(endpoints2) && se.currWeight == 0 && old(Tracks(endpoints2, 0)) ==> Tracks(endpoints2, 0)
      ensures endpoints1 == old(endpoints1) + if state == Work then [se] else []
      ensures endpoints2 == old(endpoints2) + if state == Busy then [se] else []
      ensures endpoints3 == old(endpoints3) + if state == Hang then [se] else []
      ensures endpoints4 == old(endpoints4) + if state == Shut then [se] else []
      ensures endpoints5 == old(endpoints5)[se.id := se]
    {
      match state {
        case Work =>
          if se !in endpoints1 && se.currWeight == 0 && Tracks(endpoints1, 0) {
            StartsAtZero(endpoints1, se);
          }
          endpoints1 := endpoints1 + [se];
        case Busy =>
          if se !in endpoints2 && se.currWeight == 0 && Tracks(endpoints2, 0) {
            StartsAtZero(endpoints2, se);
          }
          endpoints2 := endpoints2 + [se];
        case Hang => endpoints3 := endpoints3 + [se];
        case Shut => endpoints4 := endpoints4 + [se];
        case Other =>
      }
      endpoints5 := endpoints5[se.id := se];
    }
  }
}
