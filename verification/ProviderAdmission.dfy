/**
 Admission of a Provider request (service/provider_billing.go): the shared minimum priority taken from the
 cheapest configured model, the move of the request priority, and the snapshot the job settles from.
 */
module ProviderAdmission {
  import opened Admission
  import opened Numbers
  import opened Options
  import opened ProviderBilling

  function ClampPriority(b: Bounds, p: int): int {
    var raised := if p < b.minPriority then b.minPriority else p;
    if raised > b.maxPriority then b.maxPriority else raised
  }

  /** The floor of an uncapped or capped exact billable amount. */
  function Floored(billable: int -> real): int -> nat {
    (p: int) => if billable(p) <= 0.0 then 0 else billable(p).Floor
  }

  lemma FlooredIsMonotone(billable: int -> real)
    requires MonotoneGwei(billable)
    ensures Monotone(Floored(billable))
  {
    forall p, q | p <= q ensures Floored(billable)(p) <= Floored(billable)(q) {
      FloorIsMonotone(billable(p), billable(q));
    }
  }

  function SharedLower(b: Bounds, shared: Option<int>): int {
    if shared.Some? && shared.value > 0 then shared.value else b.minPriority
  }

  /** What the move promises about its outcome, error by error. */
  ghost predicate Moves(project: Project, b: Bounds, priority: int, shared: Option<int>, billable: int -> real, r: Result<(int, real)>) {
    && (r == Err(BadPriority) <==> priority <= 0)
    && (r == Err(MaxCreditsNotSet) <==> priority > 0 && (project.maxCredits.None? || project.maxCredits.value <= 0))
    && (r.Err? ==> !r.error.BadWeights? && !r.error.BadPrice?)
    && (r.Ok? ==> r.value.1 == billable(r.value.0))
    && (priority > 0 && HasCap(project) ==>
          if project.mode.Static? then StaysStatic(b, project.maxCredits.value, priority, shared, billable, r)
          else MovesAuto(b, project.maxCredits.value, priority, SharedLower(b, shared), Floored(billable), r))
  }

  ghost predicate StaysStatic(b: Bounds, cap: int, priority: int, shared: Option<int>, billable: int -> real, r: Result<(int, real)>) {
    var credits := CreditsOf(billable(priority), b.rate);
    && (r == Err(MaxCreditsExceeded) <==> credits > cap)
    && (r == Err(TaskFeeBelowMinimum) <==> credits <= cap && shared.Some? && priority < shared.value)
    && (r.Ok? <==> credits <= cap && (shared.Some? ==> shared.value <= priority))
    && (r.Ok? ==> r.value.0 == priority)
  }

  ghost predicate MovesAuto(b: Bounds, cap: int, priority: int, lower: int, fee: int -> nat, r: Result<(int, real)>) {
    && (r == Err(AutoMaxCreditsInsufficient) <==> forall q | lower <= q <= b.maxPriority :: !Within(fee, b, cap, q))
    && (r.Ok? <==> exists q :: lower <= q <= b.maxPriority && Within(fee, b, cap, q))
    && (r.Ok? ==>
          var q := r.value.0;
          && lower <= q <= b.maxPriority && Within(fee, b, cap, q)
          && (q > priority ==> q == lower)
          && (q < priority ==> IsGreatestWithin(fee, b, cap, q)))
  }

  /**
   Auto admission moves the request priority the least it can to lie between the shared lower bound and the
   greatest priority within the cap, and refuses exactly when nothing lies between.
   */
  method EnforceAdmissionSharedMinPriority(project: Project, b: Bounds, priority: int, shared: Option<int>, billable: int -> real)
    returns (r: Result<(int, real)>)
    requires ValidBounds(b) && MonotoneGwei(billable)
    requires shared.Some? ==> b.minPriority <= shared.value <= b.maxPriority
    ensures Moves(project, b, priority, shared, billable, r)
  {
    if priority <= 0 {
      return Err(BadPriority);
    }
    if project.mode.Static? {
      if !HasCap(project) {
        return Err(MaxCreditsNotSet);
      }
      if CreditsOf(billable(priority), b.rate) > project.maxCredits.value {
        return Err(MaxCreditsExceeded);
      }
      if shared.Some? && shared.value > 0 && priority < shared.value {
        return Err(TaskFeeBelowMinimum);
      }
      return Ok((priority, billable(priority)));
    }
    var fee := Floored(billable);
    FlooredIsMonotone(billable);
    var upper := MaxPriorityWithinAutoMaxCredits(project, b, fee);
    if upper.Err? {
      return Err(upper.error);
    }
    ghost var cap := project.maxCredits.value;
    var lower := if shared.Some? && shared.value > 0 then shared.value else b.minPriority;
    if lower > upper.value {
      return Err(AutoMaxCreditsInsufficient);
    }
    assert Within(fee, b, cap, upper.value);
    var working := priority;
    if working < lower {
      working := lower;
    }
    if working > upper.value {
      working := upper.value;
    }
    WithinIsDownward(fee, b, cap, working, upper.value);
    return Ok((working, billable(working)));
  }

  /** The exact, uncapped fee in Gwei. */
  function ExactFee(p: int, units: real): real { p as real * units }

  /** The least positive priority whose exact fee for `units` reaches the minimum. */
  ghost predicate IsLeastPriority(minFee: nat, units: real, p: int) {
    && 0 < p && ExactFee(p, units) >= minFee as real
    && forall q | 0 < q < p :: ExactFee(q, units) < minFee as real
  }

  lemma LeastPriorityIs(minFee: nat, units: real, required: real, p: int)
    requires units > 0.0 && minFee > 0 && required * units == minFee as real
    requires 0 < p && p as real - 1.0 < required <= p as real
    ensures IsLeastPriority(minFee, units, p)
  {
    TimesIsMonotone(units, required, p as real);
    forall q | 0 < q < p ensures ExactFee(q, units) < minFee as real {
      StrictTimes(units, q as real, required);
    }
  }

  method CeilPriorityFromFeeAndUnits(minFee: nat, units: real) returns (p: int)
    requires units > 0.0
    ensures minFee == 0 ==> p == 0
    ensures minFee > 0 ==> IsLeastPriority(minFee, units, p)
  {
    if minFee == 0 {
      return 0;
    }
    var required := minFee as real / units;
    DivideIsPositive(minFee as real, units);
    p := required.Floor;
    if p as real < required {
      p := p + 1;
    }
    if p <= 0 {
      p := 1;
    }
    LeastPriorityIs(minFee, units, required, p);
  }

  lemma DivideIsPositive(x: real, y: real)
    requires 0.0 < x && 0.0 < y
    ensures 0.0 < x / y && x / y * y == x
  {
  }

  datatype Route = Route(provider: string, kind: string, weights: Weights, price: Decimal)

  /** A route is compared unless both kinds are known and differ. */
  predicate Considered(route: Route, kind: string) {
    kind == "" || route.kind == "" || route.kind == kind
  }

  function RouteUnits(route: Route, inputTokens: Word, maxOutputTokens: Word): Option<real> {
    EstimatedUnits(route.weights, inputTokens, maxOutputTokens)
  }

  /** A considered route that would be charged for the workload. */
  predicate Charged(route: Route, inputTokens: Word, maxOutputTokens: Word, kind: string) {
    && Considered(route, kind)
    && RouteUnits(route, inputTokens, maxOutputTokens).Some?
    && RouteUnits(route, inputTokens, maxOutputTokens).value > 0.0
  }

  predicate RoutesReadable(routes: seq<Route>, inputTokens: Word, maxOutputTokens: Word, kind: string) {
    forall i | 0 <= i < |routes| && Considered(routes[i], kind) :: RouteUnits(routes[i], inputTokens, maxOutputTokens).Some?
  }

  /** `cheapest` is the smallest units of a charged route, or None when no route is charged. */
  ghost predicate IsCheapest(routes: seq<Route>, inputTokens: Word, maxOutputTokens: Word, kind: string, cheapest: Option<real>) {
    && (forall i | 0 <= i < |routes| && Charged(routes[i], inputTokens, maxOutputTokens, kind) ::
          cheapest.Some? && cheapest.value <= RouteUnits(routes[i], inputTokens, maxOutputTokens).value)
    && (cheapest.Some? ==> exists i :: 0 <= i < |routes| && Charged(routes[i], inputTokens, maxOutputTokens, kind)
                                       && RouteUnits(routes[i], inputTokens, maxOutputTokens) == cheapest)
  }

  method CheapestProviderUnits(routes: seq<Route>, inputTokens: Word, maxOutputTokens: Word, kind: string)
    returns (r: Result<Option<real>>)
    ensures r.Err? <==> !RoutesReadable(routes, inputTokens, maxOutputTokens, kind)
    ensures r.Err? ==> r.error == BadWeights
    ensures r.Ok? ==> IsCheapest(routes, inputTokens, maxOutputTokens, kind, r.value)
  {
    hide EstimatedUnits;
    var cheapest: Option<real> := None;
    for i := 0 to |routes|
      invariant RoutesReadable(routes[..i], inputTokens, maxOutputTokens, kind)
      invariant IsCheapest(routes[..i], inputTokens, maxOutputTokens, kind, cheapest)
    {
      var route := routes[i];
      assert routes[..i + 1] == routes[..i] + [route];
      if kind != "" && route.kind != "" && route.kind != kind {
        continue;
      }
      var units := EstimateProviderUnits(route.weights, inputTokens, maxOutputTokens);
      if units.None? {
        return Err(BadWeights);
      }
      if units.value <= 0.0 {
        continue;
      }
      assert Charged(routes[..i + 1][i], inputTokens, maxOutputTokens, kind);
      if cheapest.None? || units.value < cheapest.value {
        cheapest := units;
      }
    }
    assert routes[..|routes|] == routes;
    return Ok(cheapest);
  }

  // ---------------------------------------------------------------------------------------------
  // The shared minimum priority

  /** The least priority at which the cheapest charged model costs the providers minimum. */
  ghost predicate IsSharedMinimum(routes: seq<Route>, inputTokens: Word, maxOutputTokens: Word, kind: string, minFee: nat, p: int) {
    exists units: real ::
      IsCheapest(routes, inputTokens, maxOutputTokens, kind, Some(units)) && IsLeastPriority(minFee, units, p)
  }

  ghost predicate AnyCharged(routes: seq<Route>, inputTokens: Word, maxOutputTokens: Word, kind: string) {
    exists i :: 0 <= i < |routes| && Charged(routes[i], inputTokens, maxOutputTokens, kind)
  }

  /** What resolving the shared minimum promises, error by error. */
  ghost predicate Resolves(
    b: Bounds, minPrice: Decimal, routes: seq<Route>, inputTokens: Word, maxOutputTokens: Word, kind: string, r: Result<Option<int>>)
  {
    && (r == Err(BadPrice) <==> !minPrice.Number? || minPrice.value < 0.0)
    && (r == Err(BadWeights) <==>
          minPrice.Number? && minPrice.value * 1000000000.0 >= 1.0 && !RoutesReadable(routes, inputTokens, maxOutputTokens, kind))
    && (r.Err? ==> r.error == BadPrice || r.error == BadWeights)
    && (r.Ok? ==>
          exists minFee: nat ::
            && IsGweiOf(minPrice, minFee)
            && (if r.value.None? then minFee == 0 || !AnyCharged(routes, inputTokens, maxOutputTokens, kind)
                else minFee > 0 && exists p :: IsSharedMinimum(routes, inputTokens, maxOutputTokens, kind, minFee, p)
                                               && IsClamped(b, p, r.value.value)))
  }

  /** The priority in the configured bounds that is nearest to p. */
  ghost predicate IsClamped(b: Bounds, p: int, q: int) {
    && b.minPriority <= q <= b.maxPriority
    && (b.minPriority <= p <= b.maxPriority ==> q == p)
    && (p < b.minPriority ==> q == b.minPriority)
    && (p > b.maxPriority ==> q == b.maxPriority)
  }

  method ResolveProviderSharedMinPriority(
      b: Bounds, minPrice: Decimal, routes: seq<Route>, inputTokens: Word, maxOutputTokens: Word, kind: string)
    returns (r: Result<Option<int>>)
    requires ValidBounds(b)
    ensures Resolves(b, minPrice, routes, inputTokens, maxOutputTokens, kind, r)
  {
    hide RoutesReadable, IsCheapest;
    MinFeeIs(minPrice);
    hide MinFeeGwei;
    var minFee := MinFeeGwei(minPrice);
    if minFee.None? {
      return Err(BadPrice);
    }
    if minFee.value == 0 {
      return Ok(None);
    }
    var cheapest := CheapestProviderUnits(routes, inputTokens, maxOutputTokens, kind);
    if cheapest.Err? {
      return Err(cheapest.error);
    }
    if cheapest.value.None? {
      NoneIsUncharged(routes, inputTokens, maxOutputTokens, kind);
      return Ok(None);
    }
    CheapestIsPositive(routes, inputTokens, maxOutputTokens, kind, cheapest.value.value);
    var p := CeilPriorityFromFeeAndUnits(minFee.value, cheapest.value.value);
    assert IsSharedMinimum(routes, inputTokens, maxOutputTokens, kind, minFee.value, p);
    return Ok(Some(ClampPriority(b, p)));
  }

  lemma NoneIsUncharged(routes: seq<Route>, inputTokens: Word, maxOutputTokens: Word, kind: string)
    requires IsCheapest(routes, inputTokens, maxOutputTokens, kind, None)
    ensures !AnyCharged(routes, inputTokens, maxOutputTokens, kind)
  {
  }

  lemma CheapestIsPositive(routes: seq<Route>, inputTokens: Word, maxOutputTokens: Word, kind: string, units: real)
    requires IsCheapest(routes, inputTokens, maxOutputTokens, kind, Some(units))
    ensures units > 0.0
  {
  }

  /** Start-up check: every Provider cap is readable and at least the providers minimum. */
  predicate PricesAccepted(routes: seq<Route>, minFee: nat) {
    forall i | 0 <= i < |routes| :: MaxFeeGwei(routes[i].price).Some? && minFee <= MaxFeeGwei(routes[i].price).value
  }

  /** At priority p the post-cap fee of every charged model reaches the minimum. */
  ghost predicate AllReach(routes: seq<Route>, inputTokens: Word, maxOutputTokens: Word, kind: string, minFee: nat, p: int) {
    forall i | 0 <= i < |routes| && Charged(routes[i], inputTokens, maxOutputTokens, kind) ::
      var fee := BillableGwei(p, RouteUnits(routes[i], inputTokens, maxOutputTokens).value, routes[i].price);
      fee.Some? && fee.value >= minFee as real
  }

  lemma ExactFeeGrows(p: int, q: int, x: real, y: real)
    requires 0 <= p <= q && 0.0 <= x <= y
    ensures 0.0 <= ExactFee(p, x) <= ExactFee(q, y)
  {
    TimesIsMonotone(p as real, 0.0, x);
    TimesIsMonotone(p as real, x, y);
    TimesIsMonotone(y, p as real, q as real);
  }

  /** The shared minimum is exactly the threshold from which every charged model reaches the minimum fee. */
  lemma SharedMinimumIsThreshold(
      routes: seq<Route>, inputTokens: Word, maxOutputTokens: Word, kind: string, minFee: nat, least: int, p: int)
    requires minFee > 0 && PricesAccepted(routes, minFee) && p > 0
    requires IsSharedMinimum(routes, inputTokens, maxOutputTokens, kind, minFee, least)
    ensures AllReach(routes, inputTokens, maxOutputTokens, kind, minFee, p) <==> least <= p
  {
    hide EstimatedUnits, MaxFeeGwei, Considered;
    var units :| IsCheapest(routes, inputTokens, maxOutputTokens, kind, Some(units)) && IsLeastPriority(minFee, units, least);
    if least <= p {
      forall i | 0 <= i < |routes| && Charged(routes[i], inputTokens, maxOutputTokens, kind)
        ensures ExactFee(p, RouteUnits(routes[i], inputTokens, maxOutputTokens).value) >= minFee as real
      {
        var more := RouteUnits(routes[i], inputTokens, maxOutputTokens).value;
        ExactFeeGrows(least, p, units, more);
      }
    } else {
      var i :| 0 <= i < |routes| && Charged(routes[i], inputTokens, maxOutputTokens, kind)
               && RouteUnits(routes[i], inputTokens, maxOutputTokens) == Some(units);
      assert ExactFee(p, units) < minFee as real;
    }
  }

  /**
   At the clamped shared minimum every charged model reaches the minimum fee exactly when the configured
   maximum priority did not lower it.
   */
  lemma ClampedMinimumReachesIff(
      b: Bounds, routes: seq<Route>, inputTokens: Word, maxOutputTokens: Word, kind: string, minFee: nat, least: int)
    requires ValidBounds(b) && minFee > 0 && PricesAccepted(routes, minFee)
    requires IsSharedMinimum(routes, inputTokens, maxOutputTokens, kind, minFee, least)
    ensures AllReach(routes, inputTokens, maxOutputTokens, kind, minFee, ClampPriority(b, least)) <==> least <= b.maxPriority
  {
    SharedMinimumIsThreshold(routes, inputTokens, maxOutputTokens, kind, minFee, least, ClampPriority(b, least));
  }

  /** Whatever the maximum priority, an accepted configuration exists in which the clamp lowers the shared minimum. */
  lemma ClampCanLower(b: Bounds)
    requires ValidBounds(b)
    ensures exists route: Route, minFee: nat, least: int ::
              && minFee > 0 && PricesAccepted([route], minFee)
              && IsSharedMinimum([route], 0, 1, DEFAULT_KIND, minFee, least)
              && b.maxPriority < least
              && !AllReach([route], 0, 1, DEFAULT_KIND, minFee, ClampPriority(b, least))
  {
    var minFee := b.maxPriority + 1;
    var route := Route("openai", DEFAULT_KIND, map[Output := Decimal.Number(1.0)], Decimal.Number(minFee as real));
    OneUnit(route.weights);
    CapCovers(minFee);
    assert RouteUnits([route][0], 0, 1) == Some(1.0);
    assert Charged([route][0], 0, 1, DEFAULT_KIND);
    assert IsCheapest([route], 0, 1, DEFAULT_KIND, Some(1.0));
    forall q | 0 < q < minFee ensures ExactFee(q, 1.0) < minFee as real {
    }
    assert IsLeastPriority(minFee, 1.0, minFee);
    assert IsSharedMinimum([route], 0, 1, DEFAULT_KIND, minFee, minFee);
    ClampedMinimumReachesIff(b, [route], 0, 1, DEFAULT_KIND, minFee, minFee);
  }

  lemma OneUnit(w: Weights)
    requires w == map[Output := Decimal.Number(1.0)]
    ensures EstimatedUnits(w, 0, 1) == Some(1.0)
  {
    HeaviestIsMaximum(w, INPUT_SIDE);
    HeaviestIsMaximum(w, OUTPUT_SIDE);
    assert OUTPUT_SIDE[0] == Output;
    assert WeightOf(w, Output) == 1.0;
    TimesZero(Heaviest(w, INPUT_SIDE));
  }

  lemma CapCovers(fee: nat)
    requires fee > 0
    ensures MaxFeeGwei(Decimal.Number(fee as real)).Some? && fee <= MaxFeeGwei(Decimal.Number(fee as real)).value
  {
    assert fee as real * GWEI == (fee * 1000000000) as real;
  }

  // ---------------------------------------------------------------------------------------------
  // The billing snapshot

  /** The post-cap fee at a priority. */
  function CappedFee(units: real, maxFee: nat): int -> real {
    (p: int) => if p <= 0 || units <= 0.0 then 0.0 else Capped(ExactFee(p, units), maxFee)
  }

  /** At a positive priority that is the fee of the job: priority times units, but no more than the maximum. */
  lemma CappedFeeIs(p: int, units: real, maxFee: nat)
    requires 0.0 <= units
    ensures if p > 0 then IsFee(p, units, maxFee, CappedFee(units, maxFee)(p)) else CappedFee(units, maxFee)(p) == 0.0
  {
    if units == 0.0 {
      assert p as real * units == 0.0;
    }
  }

  /** The searches compare Credits of the fee in whole Gwei. */
  lemma FlooredIs(billable: int -> real, p: int)
    requires 0.0 <= billable(p)
    ensures Floored(billable)(p) as real <= billable(p) < Floored(billable)(p) as real + 1.0
  {
  }

  lemma CappedFeeIsMonotone(units: real, maxFee: nat)
    ensures MonotoneGwei(CappedFee(units, maxFee))
  {
    forall p: int ensures 0.0 <= CappedFee(units, maxFee)(p) {
      if p > 0 && units > 0.0 {
        TimesIsMonotone(units, 0.0, p as real);
      }
    }
    forall p: int, q: int | p <= q ensures CappedFee(units, maxFee)(p) <= CappedFee(units, maxFee)(q) {
      if 0 < p && 0.0 < units {
        ExactFeeGrows(p, q, units, units);
      } else {
        assert CappedFee(units, maxFee)(p) == 0.0;
      }
    }
  }

  const DEFAULT_KIND: string := "chat"

  /**
   Exactly when a Provider hold, taken from the exact post-cap fee, always stays within a cap that the floored fee meets.
   */
  ghost predicate ProviderCapIsExact(rate: real, cap: int, maxFee: nat) {
    WholeFee(rate, cap + 1) || Cost(maxFee, rate) < (cap + 1) as real
  }

  lemma NoCheaperThan(fee: real, rate: real, cost: real, maxFee: nat)
    requires 0.0 < rate && fee * rate == cost && Cost(maxFee, rate) >= cost
    ensures fee <= maxFee as real
  {
    if maxFee as real < fee {
      StrictTimes(rate, maxFee as real, fee);
    }
  }

  lemma ProviderHoldWithinCapIff(rate: real, cap: int, maxFee: nat)
    requires 0.0 < rate && 1 <= cap
    ensures (forall fee: real ::
               0.0 <= fee <= maxFee as real && CreditsOf(fee.Floor as real, rate) <= cap ==> CreditsOf(fee, rate) <= cap)
            <==> ProviderCapIsExact(rate, cap, maxFee)
  {
    hide CreditsOf, WholeFee;
    if WholeFee(rate, cap + 1) {
      forall fee: real | 0.0 <= fee <= maxFee as real && CreditsOf(fee.Floor as real, rate) <= cap
        ensures CreditsOf(fee, rate) <= cap
      {
        WholeFeeSeparates(fee, rate, cap);
      }
    } else if Cost(maxFee, rate) < (cap + 1) as real {
      forall fee: real | 0.0 <= fee <= maxFee as real ensures CreditsOf(fee, rate) <= cap {
        CreditsWithin(fee, rate, cap);
        TimesIsMonotone(rate, fee, maxFee as real);
      }
    } else {
      var fee := SplitFeeOvershoots(rate, cap);
      NoCheaperThan(fee, rate, (cap + 1) as real, maxFee);
    }
  }

  /** A snapshot whose locked Credits are its own quote, near the project's cap, and within it when the cap is exact. */
  ghost predicate Quoted(project: Project, b: Bounds, s: Snapshot, credits: int, maxFee: nat) {
    && QuotedCredits(s) == Some(credits)
    && HasCap(project)
    && 1 <= credits <= project.maxCredits.value + Ceil(b.rate)
    && (project.mode.Static? || ProviderCapIsExact(b.rate, project.maxCredits.value, maxFee) ==> credits <= project.maxCredits.value)
  }

  lemma SnapshotIsQuoted(project: Project, b: Bounds, s: Snapshot, fee: real, units: real, maxFee: nat)
    requires ValidBounds(b) && HasCap(project) && s.rate == Decimal.Number(b.rate) && s.priority > 0
    requires QuotedUnits(s) == Some(units) && MaxFeeGwei(s.price) == Some(maxFee)
    requires fee == CappedFee(units, maxFee)(s.priority) && 0.0 <= units
    requires CreditsOf(if project.mode.Static? then fee else fee.Floor as real, b.rate) <= project.maxCredits.value
    ensures Quoted(project, b, s, CreditsOf(fee, b.rate), maxFee)
  {
    hide EstimatedUnits, MaxFeeGwei;
    CappedFeeIsExact(s.priority, units, maxFee);
    assert BillableGwei(s.priority, units, s.price) == Some(fee);
    hide CappedFee, ExactFee, BillableGwei, AtLeastOne;
    FloorOvershoot(fee, b.rate);
    CeilIsPositive(b.rate);
    CreditsOfIsPositive(fee, b.rate);
    hide CreditsOf, ProviderCapIsExact, Capped;
    ProviderHoldWithinCapIff(b.rate, project.maxCredits.value, maxFee);
  }

  lemma CreditsOfIsPositive(billable: real, rate: real)
    ensures CreditsOf(billable, rate) >= 1
  {
  }

  lemma CappedFeeIsExact(p: int, units: real, maxFee: nat)
    requires p > 0 && 0.0 <= units
    ensures 0.0 <= CappedFee(units, maxFee)(p) <= maxFee as real
    ensures CappedFee(units, maxFee)(p) == Capped(ExactFee(p, units), maxFee)
  {
    TimesIsMonotone(p as real, 0.0, units);
  }

  lemma CeilIsPositive(rate: real)
    requires rate > 0.0
    ensures Ceil(rate) >= 1
  {
  }

  /** The priority and the fee at it, or the error, out of the billing data. */
  function MovedPart(r: Result<(Snapshot, int)>, billable: int -> real): Result<(int, real)> {
    match r
    case Ok((s, _)) => Ok((s.priority, billable(s.priority)))
    case Err(error) => Err(error)
  }

  function KindOf(route: Route): string { if route.kind == "" then DEFAULT_KIND else route.kind }

  /**
   The checks and searches in order: the route's cap and weights, the shared minimum of its kind, the move of the
   priority, and the quote. Every error is one of those of its parts, on the condition they state.
   */
  method BuildProviderBillingData(
      project: Project, b: Bounds, minPrice: Decimal, routes: seq<Route>, route: Route, priority: int,
      textTokens: Word, imageTokens: Word, maxOutputTokens: Word)
    returns (r: Result<(Snapshot, int)>)
    requires ValidBounds(b)
    ensures var inputTokens := Wrap(textTokens + imageTokens);
            var units := EstimatedUnits(route.weights, inputTokens, maxOutputTokens);
            if !route.price.Number? || route.price.value * 1000000000.0 < 1.0 then r == Err(BadPrice)
            else if units.None? then r == Err(BadWeights)
            else
              exists maxFee: nat, shared: Result<Option<int>> ::
                && IsGweiOf(route.price, maxFee)
                && Resolves(b, minPrice, routes, inputTokens, maxOutputTokens, if route.kind == "" then "chat" else route.kind, shared)
                && (if shared.Err? then r == Err(shared.error)
                    else
                      var billable := CappedFee(units.value, maxFee);
                      Moves(project, b, priority, shared.value, billable, MovedPart(r, billable)))
    ensures r.Ok? ==>
              var (s, credits) := r.value;
              && s == Snapshot(route.weights, s.priority, Decimal.Number(b.rate), route.price,
                               (textTokens + imageTokens) % 0x1_0000_0000_0000_0000, maxOutputTokens)
              && exists maxFee: nat :: IsGweiOf(route.price, maxFee) && Quoted(project, b, s, credits, maxFee)
  {
    MaxFeeIs(route.price);
    hide EstimatedUnits, MaxFeeGwei, Moves, Resolves, Quoted, CreditsOf, CappedFee, MonotoneGwei, IsGweiOf;
    var maxFee := MaxFeeGwei(route.price);
    if maxFee.None? {
      return Err(BadPrice);
    }
    var inputTokens := Wrap(textTokens + imageTokens);
    var units := EstimateProviderUnits(route.weights, inputTokens, maxOutputTokens);
    if units.None? {
      return Err(BadWeights);
    }
    EstimatedUnitsAreNonNegative(route.weights, inputTokens, maxOutputTokens);
    var billable := CappedFee(units.value, maxFee.value);
    CappedFeeIsMonotone(units.value, maxFee.value);
    var shared := ResolveProviderSharedMinPriority(b, minPrice, routes, inputTokens, maxOutputTokens, KindOf(route));
    if shared.Err? {
      return Err(shared.error);
    }
    SharedIsInBounds(b, minPrice, routes, inputTokens, maxOutputTokens, KindOf(route), shared.value);
    var moved := EnforceAdmissionSharedMinPriority(project, b, priority, shared.value, billable);
    if moved.Err? {
      return Err(moved.error);
    }
    var (p, fee) := moved.value;
    MovedIsWithin(project, b, priority, shared.value, units.value, maxFee.value, p, fee);
    var s := Snapshot(route.weights, p, Decimal.Number(b.rate), route.price, inputTokens, maxOutputTokens);
    SnapshotIsQuoted(project, b, s, fee, units.value, maxFee.value);
    return Ok((s, CreditsOf(fee, b.rate)));
  }

  lemma SharedIsInBounds(
      b: Bounds, minPrice: Decimal, routes: seq<Route>, inputTokens: Word, maxOutputTokens: Word, kind: string, shared: Option<int>)
    requires ValidBounds(b) && Resolves(b, minPrice, routes, inputTokens, maxOutputTokens, kind, Ok(shared))
    ensures shared.Some? ==> b.minPriority <= shared.value <= b.maxPriority
  {
    hide IsSharedMinimum, AnyCharged;
  }

  lemma MovedIsWithin(
      project: Project, b: Bounds, priority: int, shared: Option<int>, units: real, maxFee: nat, p: int, fee: real)
    requires ValidBounds(b) && Moves(project, b, priority, shared, CappedFee(units, maxFee), Ok((p, fee))) && 0.0 <= units
    requires shared.Some? ==> b.minPriority <= shared.value <= b.maxPriority
    ensures HasCap(project) && p > 0 && fee == CappedFee(units, maxFee)(p)
    ensures CreditsOf(if project.mode.Static? then fee else fee.Floor as real, b.rate) <= project.maxCredits.value
  {
    hide CappedFee, IsGreatestWithin;
    var r: Result<(int, real)> := Ok((p, fee));
    assert r != Err(BadPriority) && r != Err(MaxCreditsNotSet);
    CappedFeeIsExact(p, units, maxFee);
  }

  lemma EstimatedUnitsAreNonNegative(w: Weights, inputTokens: Word, maxOutputTokens: Word)
    requires EstimatedUnits(w, inputTokens, maxOutputTokens).Some?
    ensures 0.0 <= EstimatedUnits(w, inputTokens, maxOutputTokens).value
  {
    TimesGrows(0, inputTokens, 0.0, Heaviest(w, INPUT_SIDE));
    TimesGrows(0, maxOutputTokens, 0.0, Heaviest(w, OUTPUT_SIDE));
  }
}
