/**
 Admission against the Credits cap and the minimum fee (service/task_fee.go and the admission half of
 service/provider_billing.go). The fee at a Cost Level is any monotone function of the priority.
 */
module Admission {
  import opened Numbers
  import opened Options
  import opened ProviderBilling

  datatype Error =
    | BadPriority | MaxCreditsNotSet | AutoMaxCreditsInsufficient | MaxCreditsExceeded | TaskFeeBelowMinimum | BadWeights | BadPrice

  datatype Result<+T> = Ok(value: T) | Err(error: Error)

  datatype Mode = Static | Auto

  datatype Project = Project(mode: Mode, maxCredits: Option<int>)

  /** Accepted start-up settings: positive priority bounds in order and a positive Credits rate. */
  datatype Bounds = Bounds(minPriority: int, maxPriority: int, rate: real)

  predicate ValidBounds(b: Bounds) {
    0 < b.minPriority <= b.maxPriority && 0.0 < b.rate
  }

  ghost predicate Monotone(fee: int -> nat) {
    forall p, q | p <= q :: fee(p) <= fee(q)
  }

  ghost predicate MonotoneGwei(billable: int -> real) {
    && (forall p :: 0.0 <= billable(p))
    && (forall p, q | p <= q :: billable(p) <= billable(q))
  }

  lemma CreditsOfIsMonotone(x: real, y: real, rate: real)
    requires x <= y && 0.0 < rate
    ensures CreditsOf(x, rate) <= CreditsOf(y, rate)
  {
    CreditsGrow(x, y, rate);
  }

  // ---------------------------------------------------------------------------------------------
  // The Credits cap

  predicate Within(fee: int -> nat, b: Bounds, cap: int, p: int) {
    CreditsOf(fee(p) as real, b.rate) <= cap
  }

  lemma WithinIsDownward(fee: int -> nat, b: Bounds, cap: int, p: int, q: int)
    requires Monotone(fee) && 0.0 < b.rate && p <= q && Within(fee, b, cap, q)
    ensures Within(fee, b, cap, p)
  {
    CreditsOfIsMonotone(fee(p) as real, fee(q) as real, b.rate);
  }

  predicate HasCap(project: Project) {
    project.maxCredits.Some? && project.maxCredits.value > 0
  }

  /** p is the greatest priority in the configured bounds whose Credits are within the cap. */
  ghost predicate IsGreatestWithin(fee: int -> nat, b: Bounds, cap: int, p: int) {
    && b.minPriority <= p <= b.maxPriority
    && Within(fee, b, cap, p)
    && forall q | p < q <= b.maxPriority :: !Within(fee, b, cap, q)
  }

  method MaxPriorityWithinAutoMaxCredits(project: Project, b: Bounds, fee: int -> nat) returns (r: Result<int>)
    requires ValidBounds(b) && Monotone(fee)
    ensures r == Err(MaxCreditsNotSet) <==> project.maxCredits.None? || project.maxCredits.value <= 0
    ensures r == Err(AutoMaxCreditsInsufficient) <==>
              HasCap(project) && forall q | b.minPriority <= q <= b.maxPriority :: !Within(fee, b, project.maxCredits.value, q)
    ensures r.Ok? <==>
              HasCap(project) && exists q :: b.minPriority <= q <= b.maxPriority && Within(fee, b, project.maxCredits.value, q)
    ensures r.Ok? ==> IsGreatestWithin(fee, b, project.maxCredits.value, r.value)
  {
    if !HasCap(project) {
      return Err(MaxCreditsNotSet);
    }
    var cap := project.maxCredits.value;
    if CreditsOf(fee(b.minPriority) as real, b.rate) > cap {
      forall q | b.minPriority <= q <= b.maxPriority ensures !Within(fee, b, cap, q) {
        if Within(fee, b, cap, q) {
          WithinIsDownward(fee, b, cap, b.minPriority, q);
        }
      }
      return Err(AutoMaxCreditsInsufficient);
    }
    var lo, hi := b.minPriority, b.maxPriority;
    while lo < hi
      invariant b.minPriority <= lo <= hi <= b.maxPriority
      invariant Within(fee, b, cap, lo)
      invariant forall q | hi < q <= b.maxPriority :: !Within(fee, b, cap, q)
    {
      var mid := (lo + (hi + 1)) / 2;
      if CreditsOf(fee(mid) as real, b.rate) <= cap {
        lo := mid;
      } else {
        forall q | mid <= q <= b.maxPriority ensures !Within(fee, b, cap, q) {
          if Within(fee, b, cap, q) {
            WithinIsDownward(fee, b, cap, mid, q);
          }
        }
        hi := mid - 1;
      }
    }
    assert Within(fee, b, cap, lo);
    return Ok(lo);
  }

  // ---------------------------------------------------------------------------------------------
  // Crynux admission: cap, then raise to the minimum fee

  /** p meets both the Credits cap and the minimum fee. */
  predicate Affordable(fee: int -> nat, b: Bounds, cap: int, minFee: nat, p: int) {
    b.minPriority <= p <= b.maxPriority && Within(fee, b, cap, p) && fee(p) >= minFee
  }

  /** The least priority above p whose fee meets the minimum. */
  ghost predicate IsLeastRaise(fee: int -> nat, minFee: nat, p: int, q: int) {
    p < q && fee(q) >= minFee && forall x | x < q :: fee(x) < minFee
  }

  datatype Admitted = Admitted(priority: int, fee: nat)

  /** What admission promises about its outcome, error by error. */
  ghost predicate Admits(project: Project, b: Bounds, priority: int, minFee: nat, fee: int -> nat, r: Result<Admitted>) {
    && (r == Err(BadPriority) <==> priority <= 0)
    && (r == Err(MaxCreditsNotSet) <==> priority > 0 && (project.maxCredits.None? || project.maxCredits.value <= 0))
    && (priority > 0 && HasCap(project) ==>
          if project.mode.Static? then AdmitsStatic(b, project.maxCredits.value, priority, minFee, fee, r)
          else AdmitsAuto(b, project.maxCredits.value, priority, minFee, fee, r))
  }

  ghost predicate AdmitsStatic(b: Bounds, cap: int, priority: int, minFee: nat, fee: int -> nat, r: Result<Admitted>) {
    && (r == Err(MaxCreditsExceeded) <==> !Within(fee, b, cap, priority))
    && (r == Err(TaskFeeBelowMinimum) <==> Within(fee, b, cap, priority) && fee(priority) < minFee)
    && (r.Ok? <==> Within(fee, b, cap, priority) && fee(priority) >= minFee)
    && (r.Ok? ==> r.value == Admitted(priority, fee(priority)))
  }

  ghost predicate AdmitsAuto(b: Bounds, cap: int, priority: int, minFee: nat, fee: int -> nat, r: Result<Admitted>) {
    && (r == Err(AutoMaxCreditsInsufficient) <==> forall q :: !Affordable(fee, b, cap, minFee, q))
    && (r.Ok? <==> exists q :: Affordable(fee, b, cap, minFee, q))
    && (r.Ok? ==>
          var q := r.value.priority;
          && r.value.fee == fee(q) && fee(q) >= minFee && Within(fee, b, cap, q)
          && exists top :: IsGreatestWithin(fee, b, cap, top) && q <= top
                           && (if fee(Min(priority, top)) >= minFee then q == Min(priority, top)
                               else IsLeastRaise(fee, minFee, Min(priority, top), q)))
  }

  /** The source's checks and searches, in its order. */
  method EnforceAdmissionMinTaskFee(project: Project, b: Bounds, priority: int, minFee: nat, fee: int -> nat)
    returns (r: Result<Admitted>)
    requires ValidBounds(b) && Monotone(fee)
    ensures Admits(project, b, priority, minFee, fee, r)
  {
    if priority <= 0 {
      return Err(BadPriority);
    }
    if project.mode.Static? {
      if !HasCap(project) {
        return Err(MaxCreditsNotSet);
      }
      if CreditsOf(fee(priority) as real, b.rate) > project.maxCredits.value {
        return Err(MaxCreditsExceeded);
      }
      if minFee > 0 && fee(priority) < minFee {
        return Err(TaskFeeBelowMinimum);
      }
      return Ok(Admitted(priority, fee(priority)));
    }
    var top := MaxPriorityWithinAutoMaxCredits(project, b, fee);
    if top.Err? {
      return Err(top.error);
    }
    ghost var cap := project.maxCredits.value;
    var working := Min(priority, top.value);
    WithinIsDownward(fee, b, cap, working, top.value);
    if minFee == 0 || fee(working) >= minFee {
      assert Affordable(fee, b, cap, minFee, top.value);
      return Ok(Admitted(working, fee(working)));
    }
    var autoMax := if top.value < working then working else top.value;
    if fee(autoMax) < minFee {
      forall q ensures !Affordable(fee, b, cap, minFee, q) {
        if q <= autoMax {
          assert fee(q) <= fee(autoMax);
        }
      }
      return Err(AutoMaxCreditsInsufficient);
    }
    assert Affordable(fee, b, cap, minFee, autoMax);
    var lo, hi := working, autoMax;
    while lo < hi
      invariant working <= lo <= hi <= autoMax && working < hi
      invariant fee(hi) >= minFee
      invariant forall x | x < lo :: fee(x) < minFee
    {
      var mid := (lo + hi) / 2;
      if fee(mid) >= minFee {
        hi := mid;
      } else {
        lo := mid + 1;
      }
    }
    WithinIsDownward(fee, b, cap, hi, top.value);
    assert IsLeastRaise(fee, minFee, working, hi);
    return Ok(Admitted(hi, fee(hi)));
  }

  function Min(a: int, b: int): int { if a < b then a else b }

  // ---------------------------------------------------------------------------------------------
  // The unfloored fee that is locked

  /** A positive whole cap applied to a fee and to its floor: the unfloored fee passes when its floor does. */
  function CapFee(billable: real, maxFee: nat): (r: (real, int))
    requires 0.0 <= billable
    ensures r.0.Floor == r.1 == Min(billable.Floor, maxFee) && r.0 <= billable
    ensures billable.Floor <= maxFee ==> r.0 == billable
  {
    if billable.Floor <= maxFee then (billable, billable.Floor) else (maxFee as real, maxFee)
  }

  /**
   The searches compare Credits of the floored fee; the hold uses the unfloored one. It exceeds them by at
   most one Gwei's Credits, rounded up.
   */
  lemma FloorOvershoot(billable: real, rate: real)
    requires 0.0 <= billable && 0.0 < rate
    ensures var floored := CreditsOf(billable.Floor as real, rate);
            floored <= CreditsOf(billable, rate) <= floored + Ceil(rate)
  {
    OvershootFrom(billable.Floor as real, billable, rate);
  }

  lemma OvershootFrom(fee: real, billable: real, rate: real)
    requires fee <= billable < fee + 1.0 && 0.0 < rate
    ensures CreditsOf(fee, rate) <= CreditsOf(billable, rate) <= CreditsOf(fee, rate) + Ceil(rate)
  {
    CreditsOfIsMonotone(fee, billable, rate);
    NextGwei(fee, billable, rate, fee * rate, billable * rate);
    FloorOfSum(fee * rate, rate, billable * rate);
  }

  lemma NextGwei(fee: real, billable: real, rate: real, x: real, y: real)
    requires billable < fee + 1.0 && 0.0 < rate && x == fee * rate && y == billable * rate
    ensures y < x + rate
  {
    StrictTimes(rate, billable, fee + 1.0);
    assert (fee + 1.0) * rate == x + rate;
  }

  lemma StrictTimes(c: real, r: real, s: real)
    requires 0.0 < c && r < s
    ensures r * c < s * c
  {
    assert 0.0 < (s - r) * c;
  }

  lemma FloorOfSum(x: real, r: real, y: real)
    requires y < x + r
    ensures y.Floor <= x.Floor + Ceil(r)
  {
  }

  /** An illustration at which the bound is attained: at 1.9 Credits a Gwei, a cap of 1 Credit admits a fee that locks 3. */
  lemma OvershootIsAttained()
    ensures var (billable, fee) := CapFee(1.99, 10);
            CreditsOf(fee as real, 1.9) == 1 && CreditsOf(billable, 1.9) == 1 + Ceil(1.9)
  {
    var (billable, fee) := CapFee(1.99, 10);
    assert fee as real * 1.9 == 1.9;
    assert billable * 1.9 == 3.781;
    assert (3.781).Floor == 3 && (1.9).Floor == 1 && (-1.9).Floor == -2;
  }

  /** The exact Credits of a whole Gwei amount. */
  function Cost(gwei: int, rate: real): real { gwei as real * rate }

  /** Some whole Gwei amount costs exactly this many Credits. */
  ghost predicate WholeFee(rate: real, credits: int) {
    exists m: nat :: Cost(m, rate) == credits as real
  }

  /** That is a division a caller can do: credits / rate is a whole number. */
  lemma WholeFeeIsCheckable(rate: real, credits: nat)
    requires 0.0 < rate
    ensures WholeFee(rate, credits) <==> Cost((credits as real / rate).Floor, rate) == credits as real
  {
    var x := credits as real / rate;
    QuotientIs(credits as real, rate);
    if m: nat :| Cost(m, rate) == credits as real {
      SameQuotient(m as real, x, rate);
    }
    FloorIsMonotone(0.0, x);
  }

  lemma QuotientIs(x: real, rate: real)
    requires 0.0 < rate && 0.0 <= x
    ensures 0.0 <= x / rate && x / rate * rate == x
  {
  }

  lemma SameQuotient(a: real, b: real, rate: real)
    requires 0.0 < rate && a * rate == b * rate
    ensures a == b
  {
    if a < b {
      StrictTimes(rate, a, b);
    } else if b < a {
      StrictTimes(rate, b, a);
    }
  }

  lemma CreditsWithin(billable: real, rate: real, cap: int)
    requires 1 <= cap
    ensures CreditsOf(billable, rate) <= cap <==> billable * rate < (cap + 1) as real
  {
  }

  /** A whole amount whose Credits are exactly one past the cap separates the fees within it, floored or not. */
  lemma WholeFeeSeparates(billable: real, rate: real, cap: int)
    requires 0.0 <= billable && 0.0 < rate && 1 <= cap && WholeFee(rate, cap + 1)
    requires CreditsOf(billable.Floor as real, rate) <= cap
    ensures CreditsOf(billable, rate) <= cap
  {
    hide CreditsOf;
    var m: nat :| Cost(m, rate) == (cap + 1) as real;
    var fee := billable.Floor;
    CreditsWithin(fee as real, rate, cap);
    CreditsWithin(billable, rate, cap);
    if m <= fee {
      TimesIsMonotone(rate, m as real, fee as real);
    } else {
      StrictTimes(rate, billable, m as real);
    }
  }

  /** When the capped fee cannot cost more than the cap at all, nothing does. */
  lemma MaxFeeSeparates(product: real, maxFee: nat, rate: real, cap: int)
    requires 0.0 <= product && 0.0 < rate && 1 <= cap && Cost(maxFee + 1, rate) <= (cap + 1) as real
    ensures CreditsOf(CapFee(product, maxFee).0, rate) <= cap
  {
    hide CreditsOf;
    var billable := CapFee(product, maxFee).0;
    assert billable.Floor <= maxFee;
    assert billable < (maxFee + 1) as real;
    var whole := (maxFee + 1) as real;
    assert Cost(maxFee + 1, rate) == whole * rate;
    hide *;
    CheaperStaysWithin(billable, whole, rate, Cost(maxFee + 1, rate), cap);
  }

  lemma CheaperStaysWithin(billable: real, whole: real, rate: real, cost: real, cap: int)
    requires billable < whole && 0.0 < rate && 1 <= cap && cost == whole * rate && cost <= (cap + 1) as real
    ensures CreditsOf(billable, rate) <= cap
  {
    StrictTimes(rate, billable, whole);
    CreditsWithin(billable, rate, cap);
    hide *;
  }

  /** The amount that costs exactly one Credit past the cap, when it is not whole, passes the cap and its floor does not. */
  lemma SplitFeeOvershoots(rate: real, cap: int) returns (billable: real)
    requires 0.0 < rate && 1 <= cap && !WholeFee(rate, cap + 1)
    ensures 0.0 <= billable && billable * rate == (cap + 1) as real
    ensures CreditsOf(billable.Floor as real, rate) <= cap < CreditsOf(billable, rate)
  {
    hide CreditsOf;
    billable := (cap + 1) as real / rate;
    QuotientIs((cap + 1) as real, rate);
    CreditsWithin(billable, rate, cap);
    var fee: nat := billable.Floor;
    CreditsWithin(fee as real, rate, cap);
    assert Cost(fee, rate) != (cap + 1) as real;
    StrictTimesOrEqual(rate, fee as real, billable);
  }

  lemma StrictTimesOrEqual(c: real, r: real, s: real)
    requires 0.0 < c && r <= s && r * c != s * c
    ensures r * c < s * c
  {
    TimesIsMonotone(c, r, s);
  }

  /** One Credit past the cap is the price of a whole Gwei amount, or the maximum task fee is too low to reach it. */
  ghost predicate CapIsExact(rate: real, cap: int, maxFee: nat) {
    WholeFee(rate, cap + 1) || Cost(maxFee + 1, rate) <= (cap + 1) as real
  }

  /**
   Exactly when the Credits locked for the unfloored fee always stay within a cap that the floored fee meets.
   */
  lemma HoldWithinCapIff(rate: real, cap: int, maxFee: nat)
    requires 0.0 < rate && 1 <= cap
    ensures (forall product: real ::
               0.0 <= product && CreditsOf(CapFee(product, maxFee).1 as real, rate) <= cap
               ==> CreditsOf(CapFee(product, maxFee).0, rate) <= cap)
            <==> CapIsExact(rate, cap, maxFee)
  {
    hide CreditsOf, WholeFee;
    if WholeFee(rate, cap + 1) {
      forall product: real | 0.0 <= product && CreditsOf(CapFee(product, maxFee).1 as real, rate) <= cap
        ensures CreditsOf(CapFee(product, maxFee).0, rate) <= cap
      {
        WholeFeeSeparates(CapFee(product, maxFee).0, rate, cap);
      }
    } else if Cost(maxFee + 1, rate) <= (cap + 1) as real {
      forall product: real | 0.0 <= product ensures CreditsOf(CapFee(product, maxFee).0, rate) <= cap {
        MaxFeeSeparates(product, maxFee, rate, cap);
      }
    } else {
      var billable := SplitFeeOvershoots(rate, cap);
      if (maxFee + 1) as real <= billable {
        TimesIsMonotone(rate, (maxFee + 1) as real, billable);
      }
      assert CapFee(billable, maxFee) == (billable, billable.Floor);
    }
  }

  /** Without a maximum fee only the first condition is left. */
  lemma NoOvershootIff(rate: real, cap: int)
    requires 0.0 < rate && 1 <= cap
    ensures (forall billable: real ::
               0.0 <= billable && CreditsOf(billable.Floor as real, rate) <= cap ==> CreditsOf(billable, rate) <= cap)
            <==> WholeFee(rate, cap + 1)
  {
    hide CreditsOf, WholeFee;
    if WholeFee(rate, cap + 1) {
      forall billable: real | 0.0 <= billable && CreditsOf(billable.Floor as real, rate) <= cap
        ensures CreditsOf(billable, rate) <= cap
      {
        WholeFeeSeparates(billable, rate, cap);
      }
    } else {
      var billable := SplitFeeOvershoots(rate, cap);
    }
  }

  /** The whole-Gwei fee the searches see, from the exact product of priority and work. */
  function TaskFee(product: int -> real, maxFee: nat): int -> nat {
    (p: int) => if product(p) < 0.0 then 0 else CapFee(product(p), maxFee).1
  }

  /** That is the floor of the product, but no more than the maximum. */
  lemma TaskFeeIs(product: int -> real, maxFee: nat, p: int)
    requires 0.0 <= product(p)
    ensures var fee := TaskFee(product, maxFee)(p);
            fee <= maxFee && fee as real <= product(p) && (fee < maxFee ==> product(p) < fee as real + 1.0)
  {
  }

  lemma TaskFeeIsMonotone(product: int -> real, maxFee: nat)
    requires MonotoneGwei(product)
    ensures Monotone(TaskFee(product, maxFee))
  {
    forall p, q | p <= q ensures TaskFee(product, maxFee)(p) <= TaskFee(product, maxFee)(q) {
      FloorIsMonotone(product(p), product(q));
    }
  }

  lemma HoldIsNearCap(product: real, maxFee: nat, rate: real, cap: int)
    requires 0.0 <= product && 0.0 < rate && CreditsOf(CapFee(product, maxFee).1 as real, rate) <= cap
    ensures 1 <= CreditsOf(CapFee(product, maxFee).0, rate) <= cap + Ceil(rate)
    ensures CapIsExact(rate, cap, maxFee) ==> CreditsOf(CapFee(product, maxFee).0, rate) <= cap
  {
    var (billable, fee) := CapFee(product, maxFee);
    assert 0.0 <= billable;
    FloorOvershoot(billable, rate);
    assert 1 <= cap;
    hide WholeFee;
    HoldWithinCapIff(rate, cap, maxFee);
  }

  datatype Estimate = Estimate(priority: int, fee: nat, credits: int)

  function AdmittedPart(r: Result<Estimate>): Result<Admitted> {
    match r
    case Ok(e) => Ok(Admitted(e.priority, e.fee))
    case Err(error) => Err(error)
  }

  /**
   Admission of a Crynux request. The errors and the admitted priority are those of admission at the floored fee; the
   Credits to lock come from the unfloored one, pass the cap by at most ceil(rate), and pass it never when the cap is
   exact.
   */
  method EstimateTaskFee(project: Project, b: Bounds, priority: int, minFee: nat, product: int -> real, maxFee: nat)
    returns (r: Result<Estimate>)
    requires ValidBounds(b) && MonotoneGwei(product)
    ensures Admits(project, b, priority, minFee, TaskFee(product, maxFee), AdmittedPart(r))
    ensures r.Ok? ==>
              && HasCap(project) && minFee <= r.value.fee <= maxFee
              && r.value.credits == CreditsOf(CapFee(product(r.value.priority), maxFee).0, b.rate)
              && 1 <= r.value.credits <= project.maxCredits.value + Ceil(b.rate)
              && (CapIsExact(b.rate, project.maxCredits.value, maxFee) ==> r.value.credits <= project.maxCredits.value)
  {
    var fee := TaskFee(product, maxFee);
    TaskFeeIsMonotone(product, maxFee);
    var admitted := EnforceAdmissionMinTaskFee(project, b, priority, minFee, fee);
    if admitted.Err? {
      return Err(admitted.error);
    }
    AdmittedIsWithin(project, b, priority, minFee, fee, admitted.value);
    hide Admits, Monotone, CreditsOf, CapFee, CapIsExact;
    var p := admitted.value.priority;
    var billable := CapFee(product(p), maxFee).0;
    HoldIsNearCap(product(p), maxFee, b.rate, project.maxCredits.value);
    return Ok(Estimate(p, admitted.value.fee, CreditsOf(billable, b.rate)));
  }

  lemma AdmittedIsWithin(project: Project, b: Bounds, priority: int, minFee: nat, fee: int -> nat, a: Admitted)
    requires Admits(project, b, priority, minFee, fee, Ok(a))
    ensures HasCap(project) && a.fee == fee(a.priority) && minFee <= a.fee
            && Within(fee, b, project.maxCredits.value, a.priority)
  {
    assert Ok(a) != Err(BadPriority) && Ok(a) != Err(MaxCreditsNotSet);
  }
}
