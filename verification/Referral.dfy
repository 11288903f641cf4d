/**
 Referral configuration and the reward for one deposit (config/config.go and service/referral.go).
 Ratios are exact rationals in the source and reals here.
 */
module Referral {
  import opened Numbers
  import opened Options

  datatype Tier = Tier(minPurchases: nat, extraRatio: Decimal)

  datatype Config = Config(depositRewardRatio: Decimal, tiers: seq<Tier>)

  datatype Reward = Reward(amount: int, baseAmount: int, extraAmount: int)

  function ExtraValue(t: Tier): real {
    if t.extraRatio.Number? then t.extraRatio.value else 0.0
  }

  /** The extra ratio earned by tiers reached after `prior` purchases. */
  function ExtraFor(tiers: seq<Tier>, prior: nat): real {
    if tiers == [] then 0.0
    else
      var last := tiers[|tiers| - 1];
      ExtraFor(tiers[..|tiers| - 1], prior) + if last.minPurchases <= prior then ExtraValue(last) else 0.0
  }

  function AllExtra(tiers: seq<Tier>): real {
    if tiers == [] then 0.0 else AllExtra(tiers[..|tiers| - 1]) + ExtraValue(tiers[|tiers| - 1])
  }

  /** What a configuration must satisfy to pass start-up. */
  ghost predicate Accepted(c: Config) {
    && NonNegative(c.depositRewardRatio)
    && c.depositRewardRatio.value <= 1.0
    && (forall i | 0 <= i < |c.tiers| ::
          c.tiers[i].minPurchases > 0 && NonNegative(c.tiers[i].extraRatio) && c.tiers[i].extraRatio.value <= 1.0)
    && (forall i, k | 0 <= i < k < |c.tiers| :: c.tiers[i].minPurchases != c.tiers[k].minPurchases)
    && c.depositRewardRatio.value + AllExtra(c.tiers) <= 1.0
  }

  /** The start-up check accepts exactly the configurations above. */
  method CheckCreditsConfig(c: Config) returns (ok: bool)
    ensures ok <==> Accepted(c)
  {
    if !NonNegative(c.depositRewardRatio) || c.depositRewardRatio.value > 1.0 {
      return false;
    }
    var total := c.depositRewardRatio.value;
    var seen: set<nat> := {};
    for i := 0 to |c.tiers|
      invariant forall k | 0 <= k < i ::
          c.tiers[k].minPurchases > 0 && NonNegative(c.tiers[k].extraRatio) && c.tiers[k].extraRatio.value <= 1.0
      invariant seen == set k | 0 <= k < i :: c.tiers[k].minPurchases
      invariant forall j, k | 0 <= j < k < i :: c.tiers[j].minPurchases != c.tiers[k].minPurchases
      invariant total == c.depositRewardRatio.value + AllExtra(c.tiers[..i])
    {
      var tier := c.tiers[i];
      if tier.minPurchases == 0 {
        return false;
      }
      if tier.minPurchases in seen {
        var k :| 0 <= k < i && c.tiers[k].minPurchases == tier.minPurchases;
        return false;
      }
      seen := seen + {tier.minPurchases};
      if !NonNegative(tier.extraRatio) || tier.extraRatio.value > 1.0 {
        return false;
      }
      assert c.tiers[..i + 1][..i] == c.tiers[..i];
      total := total + tier.extraRatio.value;
    }
    assert c.tiers[..|c.tiers|] == c.tiers;
    return total <= 1.0;
  }

  /** Sums the tiers reached by `prior` purchases and finds the highest one reached. */
  method PurchaseBonusExtra(tiers: seq<Tier>, prior: nat) returns (extra: Option<real>, highest: Option<nat>)
    ensures extra.None? <==>
            exists i :: 0 <= i < |tiers| && tiers[i].minPurchases <= prior && !NonNegative(tiers[i].extraRatio)
    ensures extra.Some? ==> extra.value == ExtraFor(tiers, prior)
    ensures extra.Some? && highest.None? ==> forall i | 0 <= i < |tiers| :: prior < tiers[i].minPurchases
    ensures extra.Some? && highest.Some? ==>
              && (exists i :: 0 <= i < |tiers| && tiers[i].minPurchases == highest.value <= prior)
              && (forall i | 0 <= i < |tiers| && tiers[i].minPurchases <= prior :: tiers[i].minPurchases <= highest.value)
  {
    var sum := 0.0;
    highest := None;
    for i := 0 to |tiers|
      invariant sum == ExtraFor(tiers[..i], prior)
      invariant forall k | 0 <= k < i && tiers[k].minPurchases <= prior :: NonNegative(tiers[k].extraRatio)
      invariant highest.None? ==> forall k | 0 <= k < i :: prior < tiers[k].minPurchases
      invariant highest.Some? ==>
                  && (exists k :: 0 <= k < i && tiers[k].minPurchases == highest.value <= prior)
                  && (forall k | 0 <= k < i && tiers[k].minPurchases <= prior :: tiers[k].minPurchases <= highest.value)
    {
      var tier := tiers[i];
      assert tiers[..i + 1][..i] == tiers[..i];
      if prior < tier.minPurchases {
        continue;
      }
      if !NonNegative(tier.extraRatio) {
        return None, None;
      }
      sum := sum + tier.extraRatio.value;
      if highest.None? || tier.minPurchases > highest.value {
        highest := Some(tier.minPurchases);
      }
    }
    assert tiers[..|tiers|] == tiers;
    extra := Some(sum);
  }

  /** The configuration text that a deposit after `prior` purchases has to parse is readable. */
  predicate Readable(c: Config, prior: nat) {
    && NonNegative(c.depositRewardRatio)
    && forall i | 0 <= i < |c.tiers| && c.tiers[i].minPurchases <= prior :: NonNegative(c.tiers[i].extraRatio)
  }

  /** floor(credits * ratio), zero for a non-positive operand. */
  function FloorCreditsTimesRatio(credits: int, ratio: real): int {
    if ratio <= 0.0 || credits <= 0 then 0 else (credits as real * ratio).Floor
  }

  /** The reward row for a deposit, or None when nothing is paid. */
  function DepositReward(c: Config, credits: int, prior: nat): Option<Reward> {
    var base := if c.depositRewardRatio.Number? then c.depositRewardRatio.value else 0.0;
    var effective := base + ExtraFor(c.tiers, prior);
    var amount := FloorCreditsTimesRatio(credits, effective);
    if effective <= 0.0 || amount <= 0 then None
    else
      var baseAmount := FloorCreditsTimesRatio(credits, base);
      var difference := amount - baseAmount;
      Some(Reward(amount, baseAmount, if difference < 0 then 0 else difference))
  }

  lemma {:induction false} ExtraForIsMonotone(tiers: seq<Tier>, p: nat, q: nat)
    requires p <= q
    requires forall i | 0 <= i < |tiers| :: NonNegative(tiers[i].extraRatio)
    ensures 0.0 <= ExtraFor(tiers, p) <= ExtraFor(tiers, q) <= AllExtra(tiers)
  {
    if tiers != [] {
      ExtraForIsMonotone(tiers[..|tiers| - 1], p, q);
    }
  }

  lemma FloorTimesIsMonotone(credits: int, r: real, s: real)
    requires r <= s
    ensures 0 <= FloorCreditsTimesRatio(credits, r) <= FloorCreditsTimesRatio(credits, s)
  {
    if credits > 0 && 0.0 < s {
      var c := credits as real;
      TimesIsMonotone(c, r, s);
      TimesIsMonotone(c, 0.0, s);
      FloorIsMonotone(0.0, c * s);
      if 0.0 < r {
        TimesIsMonotone(c, 0.0, r);
        FloorIsMonotone(0.0, c * r);
        FloorIsMonotone(c * r, c * s);
      }
    }
  }

  lemma FloorIsCovered(credits: nat, s: real)
    requires s <= 1.0
    ensures FloorCreditsTimesRatio(credits, s) <= credits
  {
    if credits > 0 && 0.0 < s {
      var c := credits as real;
      TimesIsMonotone(c, s, 1.0);
      assert c * 1.0 == c;
      FloorIsMonotone(c * s, c);
    }
  }

  /**
   The reward is the deposit at the base ratio plus the ratios of the tiers reached, rounded down; none when that is
   nothing. Its base part is the deposit at the base ratio.
   */
  lemma RewardIs(c: Config, credits: nat, prior: nat)
    requires Accepted(c)
    ensures var ratio := c.depositRewardRatio.value + ExtraFor(c.tiers, prior);
            var base := c.depositRewardRatio.value;
            match DepositReward(c, credits, prior)
            case None => credits as real * ratio < 1.0 && 0.0 <= credits as real * ratio
            case Some(r) =>
              && r.amount >= 1 && r.amount as real <= credits as real * ratio < r.amount as real + 1.0
              && r.baseAmount as real <= credits as real * base < r.baseAmount as real + 1.0
              && r.extraAmount == r.amount - r.baseAmount
  {
    ExtraForIsMonotone(c.tiers, prior, prior);
    RewardBounds(c, credits, prior, prior);
    var base, ratio := c.depositRewardRatio.value, c.depositRewardRatio.value + ExtraFor(c.tiers, prior);
    FloorOfTimes(credits, base);
    FloorOfTimes(credits, ratio);
    hide FloorCreditsTimesRatio, ExtraFor, Accepted;
    var whole, part := credits as real * ratio, credits as real * base;
    assert 0.0 <= whole by {
      TimesIsMonotone(credits as real, 0.0, ratio);
    }
    assert 0.0 <= part by {
      TimesIsMonotone(credits as real, 0.0, base);
    }
  }

  /** The tiers reached, in order. */
  function Reached(tiers: seq<Tier>, prior: nat): seq<Tier> {
    if tiers == [] then []
    else
      var last := tiers[|tiers| - 1];
      Reached(tiers[..|tiers| - 1], prior) + if last.minPurchases <= prior then [last] else []
  }

  /** The extra ratio is that of all tiers reached together. */
  lemma {:induction false} ExtraIsOfReached(tiers: seq<Tier>, prior: nat)
    ensures ExtraFor(tiers, prior) == AllExtra(Reached(tiers, prior))
    ensures forall t :: t in Reached(tiers, prior) <==> t in tiers && t.minPurchases <= prior
  {
    if tiers != [] {
      var n := |tiers| - 1;
      ExtraIsOfReached(tiers[..n], prior);
      assert tiers == tiers[..n] + [tiers[n]];
      if tiers[n].minPurchases <= prior {
        assert Reached(tiers, prior)[..|Reached(tiers, prior)| - 1] == Reached(tiers[..n], prior);
      } else {
        assert Reached(tiers, prior) == Reached(tiers[..n], prior);
      }
    }
  }

  lemma FloorOfTimes(credits: nat, ratio: real)
    requires 0.0 <= ratio
    ensures FloorCreditsTimesRatio(credits, ratio) as real <= credits as real * ratio
            < FloorCreditsTimesRatio(credits, ratio) as real + 1.0
  {
    if ratio == 0.0 {
      assert credits as real * ratio == 0.0;
    }
  }

  function RewardAmount(c: Config, credits: int, prior: nat): int {
    match DepositReward(c, credits, prior)
    case None => 0
    case Some(r) => r.amount
  }

  /**
   Under an accepted configuration a reward splits into base and extra parts, never exceeds the deposit,
   and never falls as the purchase count grows.
   */
  lemma RewardBounds(c: Config, credits: nat, p: nat, q: nat)
    requires Accepted(c) && p <= q
    ensures var r := DepositReward(c, credits, p);
            r.Some? ==> r.value.amount == r.value.baseAmount + r.value.extraAmount
                        && 0 < r.value.amount <= credits && 0 <= r.value.baseAmount && 0 <= r.value.extraAmount
    ensures RewardAmount(c, credits, p) <= RewardAmount(c, credits, q) <= credits
  {
    ExtraForIsMonotone(c.tiers, p, q);
    var base := c.depositRewardRatio.value;
    FloorTimesIsMonotone(credits, base, base + ExtraFor(c.tiers, p));
    FloorTimesIsMonotone(credits, base + ExtraFor(c.tiers, p), base + ExtraFor(c.tiers, q));
    FloorIsCovered(credits, base + ExtraFor(c.tiers, q));
  }
}
