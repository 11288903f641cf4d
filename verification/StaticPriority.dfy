/** Static project Cost Levels: whole kgwei within the configured priority bounds (service/priority_gwei.go). */
module StaticPriority {
  import opened Options

  const UNIT: int := 1000

  /** What a stored Static Cost Level has to be under the configured bounds. */
  predicate IsStatic(configuredMin: int, configuredMax: int, p: int) {
    p > 0 && p % 1000 == 0 && configuredMin <= p <= configuredMax
  }

  function LowestLevel(configuredMin: int): int {
    var floor := if configuredMin < UNIT then UNIT else configuredMin;
    if floor % UNIT == 0 then floor else floor + (UNIT - floor % UNIT)
  }

  function HighestLevel(configuredMax: int): int { configuredMax / UNIT * UNIT }

  /** The least and greatest Static level, or None when there is none. */
  function Bounds(configuredMin: int, configuredMax: int): Option<(int, int)> {
    var lowest, highest := LowestLevel(configuredMin), HighestLevel(configuredMax);
    if highest < lowest then None else Some((lowest, highest))
  }

  lemma LowestIsLeast(configuredMin: int, p: int)
    ensures LowestLevel(configuredMin) % UNIT == 0 && LowestLevel(configuredMin) >= UNIT && LowestLevel(configuredMin) >= configuredMin
    ensures p > 0 && p % UNIT == 0 && configuredMin <= p ==> LowestLevel(configuredMin) <= p
  {
    if p > 0 && p % UNIT == 0 && configuredMin <= p {
      assert p == p / UNIT * UNIT;
    }
  }

  lemma HighestIsGreatest(configuredMax: int, p: int)
    ensures HighestLevel(configuredMax) % UNIT == 0 && HighestLevel(configuredMax) <= configuredMax
    ensures p % UNIT == 0 && p <= configuredMax ==> p <= HighestLevel(configuredMax)
  {
    if p % UNIT == 0 && p <= configuredMax {
      assert p == p / UNIT * UNIT;
    }
  }

  lemma BoundsAreTight(configuredMin: int, configuredMax: int)
    requires configuredMin > 0
    ensures Bounds(configuredMin, configuredMax).None? <==> forall p :: !IsStatic(configuredMin, configuredMax, p)
    ensures Bounds(configuredMin, configuredMax).Some? ==>
              var (lowest, highest) := Bounds(configuredMin, configuredMax).value;
              && IsStatic(configuredMin, configuredMax, lowest) && IsStatic(configuredMin, configuredMax, highest)
              && forall p | IsStatic(configuredMin, configuredMax, p) :: lowest <= p <= highest
  {
    hide LowestLevel, HighestLevel;
    var lowest, highest := LowestLevel(configuredMin), HighestLevel(configuredMax);
    forall p | IsStatic(configuredMin, configuredMax, p) ensures lowest <= p <= highest {
      LowestIsLeast(configuredMin, p);
      HighestIsGreatest(configuredMax, p);
    }
    LowestIsLeast(configuredMin, lowest);
    HighestIsGreatest(configuredMax, highest);
    if lowest <= highest {
      assert IsStatic(configuredMin, configuredMax, lowest);
    }
  }

  function Distance(a: int, b: int): nat { if a < b then b - a else a - b }

  /** Rounds to the nearest kgwei, halves up, then clamps into the Static bounds. */
  function Normalize(configuredMin: int, configuredMax: int, p: int): Option<int> {
    match Bounds(configuredMin, configuredMax)
    case None => None
    case Some((lowest, highest)) =>
      var rounded := (p + UNIT / 2) / UNIT * UNIT;
      var raised := if rounded < lowest then lowest else rounded;
      Some(if raised > highest then highest else raised)
  }

  /** The rounded level is at least as near as any other multiple, and the higher of two equally near. */
  lemma RoundedIsNearest(p: int, q: int)
    requires q % UNIT == 0
    ensures var rounded := (p + UNIT / 2) / UNIT * UNIT;
            && rounded - 500 <= p < rounded + 500
            && (q != rounded ==> q <= rounded - UNIT || rounded + UNIT <= q)
  {
    var k, m := (p + UNIT / 2) / UNIT, q / UNIT;
    assert q == m * UNIT;
  }

  /** Normalizing gives the nearest Static level there is, the higher one of two equally near. */
  lemma NormalizeIsNearest(configuredMin: int, configuredMax: int, p: int, q: int)
    requires configuredMin > 0 && IsStatic(configuredMin, configuredMax, q)
    ensures var r := Normalize(configuredMin, configuredMax, p);
            && r.Some? && IsStatic(configuredMin, configuredMax, r.value)
            && Distance(r.value, p) <= Distance(q, p)
            && (Distance(r.value, p) == Distance(q, p) ==> q <= r.value)
  {
    BoundsAreTight(configuredMin, configuredMax);
    var (lowest, highest) := Bounds(configuredMin, configuredMax).value;
    RoundedIsNearest(p, q);
    RoundedIsNearest(p, lowest);
    RoundedIsNearest(p, highest);
    var rounded := (p + UNIT / 2) / UNIT * UNIT;
    assert lowest <= rounded <= highest ==> IsStatic(configuredMin, configuredMax, rounded);
    hide IsStatic, Bounds;
  }
}
