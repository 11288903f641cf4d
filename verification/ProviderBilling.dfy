/**
 Provider pricing (service/provider_billing.go and the pricing part of SettleProviderTaskJob): the admission
 estimate, the settlement of real usage, and the conversions to Gwei, Credits and wei.
 */
module ProviderBilling {
  import opened Numbers
  import opened Options

  datatype Component = Input | Output | Cached | CacheWrite | Reasoning | ToolUse | ImageInput | ImageOutput

  /** Weight texts by component; a blank text counts as no entry. */
  type Weights = map<Component, Decimal>

  datatype Usage = Usage(
    input: Word, output: Word, cached: Word, cacheWrite: Word, reasoning: Word, toolUse: Word,
    imageInput: Word, imageOutput: Word, reasoningIncluded: bool)

  // ---------------------------------------------------------------------------------------------
  // Billed tokens

  /** Cached, cache-write and tool-use tokens are details of the input total; uint64 addition wraps. */
  function Detail(u: Usage): Word { Wrap(Wrap(u.cached + u.cacheWrite) + u.toolUse) }

  function BillableInput(u: Usage): Word {
    if (u.cached > 0 || u.cacheWrite > 0 || u.toolUse > 0) && u.input >= Detail(u) then u.input - Detail(u) else u.input
  }

  function BillableOutput(u: Usage): Word {
    if u.reasoningIncluded && u.reasoning > 0 && u.output >= u.reasoning then u.output - u.reasoning else u.output
  }

  function Amount(u: Usage, c: Component): Word {
    match c
    case Input => BillableInput(u)
    case Output => BillableOutput(u)
    case Cached => u.cached
    case CacheWrite => u.cacheWrite
    case Reasoning => u.reasoning
    case ToolUse => u.toolUse
    case ImageInput => u.imageInput
    case ImageOutput => u.imageOutput
  }

  function InputSideTokens(u: Usage): nat {
    Amount(u, Input) + Amount(u, Cached) + Amount(u, CacheWrite) + Amount(u, ToolUse) + Amount(u, ImageInput)
  }

  function OutputSideTokens(u: Usage): nat {
    Amount(u, Output) + Amount(u, Reasoning) + Amount(u, ImageOutput)
  }

  /** Input details are billed in place of, not on top of, the input total exactly when they fit in it. */
  lemma InputDetailsReplace(u: Usage)
    ensures InputSideTokens(u) == u.input + u.imageInput <==> u.cached + u.cacheWrite + u.toolUse <= u.input
  {
    if u.cached + u.cacheWrite + u.toolUse <= u.input {
      assert Detail(u) == u.cached + u.cacheWrite + u.toolUse;
    }
  }

  /** Reasoning is billed once exactly when it is a reported subset of the output, or absent. */
  lemma ReasoningReplaces(u: Usage)
    ensures OutputSideTokens(u) == u.output + u.imageOutput
            <==> u.reasoning == 0 || (u.reasoningIncluded && u.reasoning <= u.output)
    ensures OutputSideTokens(u) == u.output + u.imageOutput || OutputSideTokens(u) == u.output + u.reasoning + u.imageOutput
  {
  }

  // ---------------------------------------------------------------------------------------------
  // Units

  predicate Priced(w: Weights, c: Component) {
    c in w && NonNegative(w[c])
  }

  function WeightOf(w: Weights, c: Component): (r: real)
    ensures r >= 0.0
  {
    if Priced(w, c) then w[c].value else 0.0
  }

  function Times(n: nat, w: real): real { n as real * w }

  function Part(u: Usage, w: Weights, c: Component): real { Times(Amount(u, c), WeightOf(w, c)) }

  function InputSideUnits(u: Usage, w: Weights): real {
    Part(u, w, Input) + Part(u, w, Cached) + Part(u, w, CacheWrite) + Part(u, w, ToolUse) + Part(u, w, ImageInput)
  }

  function OutputSideUnits(u: Usage, w: Weights): real {
    Part(u, w, Output) + Part(u, w, Reasoning) + Part(u, w, ImageOutput)
  }

  predicate Billable(u: Usage, w: Weights) {
    forall c: Component :: Amount(u, c) > 0 ==> Priced(w, c)
  }

  function SettledUnits(u: Usage, w: Weights): Option<real> {
    if Billable(u, w) then Some(InputSideUnits(u, w) + OutputSideUnits(u, w)) else None
  }

  lemma BillableByComponent(u: Usage, w: Weights)
    ensures Billable(u, w) <==>
              && (Amount(u, Input) > 0 ==> Priced(w, Input)) && (Amount(u, Output) > 0 ==> Priced(w, Output))
              && (Amount(u, Cached) > 0 ==> Priced(w, Cached)) && (Amount(u, CacheWrite) > 0 ==> Priced(w, CacheWrite))
              && (Amount(u, Reasoning) > 0 ==> Priced(w, Reasoning)) && (Amount(u, ToolUse) > 0 ==> Priced(w, ToolUse))
              && (Amount(u, ImageInput) > 0 ==> Priced(w, ImageInput)) && (Amount(u, ImageOutput) > 0 ==> Priced(w, ImageOutput))
  {
    hide Amount, Priced;
    if !Billable(u, w) {
      var c: Component :| Amount(u, c) > 0 && !Priced(w, c);
      match c
      case Input =>
      case Output =>
      case Cached =>
      case CacheWrite =>
      case Reasoning =>
      case ToolUse =>
      case ImageInput =>
      case ImageOutput =>
    }
  }

  /** A weight that can be used: present, readable and not negative. */
  ghost predicate Usable(w: Weights, c: Component) {
    c in w && w[c].Number? && w[c].value >= 0.0
  }

  /** A component's tokens at its weight; without tokens nothing is looked up. */
  ghost predicate IsPart(w: Weights, c: Component, tokens: nat, part: real) {
    if tokens == 0 then part == 0.0 else Usable(w, c) && part == tokens as real * w[c].value
  }

  lemma PartIs(u: Usage, w: Weights, c: Component)
    requires Amount(u, c) > 0 ==> Priced(w, c)
    ensures IsPart(w, c, Amount(u, c), Part(u, w, c))
  {
    hide Amount;
  }

  /** Input tokens billed as such: the total without its details, if they fit in it. The sum of the details wraps. */
  ghost predicate IsPlainInput(u: Usage, tokens: nat) {
    var details := (u.cached + u.cacheWrite + u.toolUse) % 0x1_0000_0000_0000_0000;
    var some := u.cached > 0 || u.cacheWrite > 0 || u.toolUse > 0;
    tokens == if some && details <= u.input then u.input - details else u.input
  }

  /** Output tokens billed as such: the total without its reasoning, when that is part of it and fits in it. */
  ghost predicate IsPlainOutput(u: Usage, tokens: nat) {
    tokens == if u.reasoningIncluded && u.reasoning > 0 && u.reasoning <= u.output then u.output - u.reasoning else u.output
  }

  lemma PlainTokensAre(u: Usage)
    ensures IsPlainInput(u, Amount(u, Input)) && IsPlainOutput(u, Amount(u, Output))
  {
    WrapTwice(u.cached + u.cacheWrite, u.toolUse);
  }

  lemma WrapTwice(a: nat, b: nat)
    ensures Wrap(Wrap(a) + b) == (a + b) % 0x1_0000_0000_0000_0000
  {
  }

  /** Settled units are the eight components' tokens at their weights; None exactly when one with tokens has no usable weight. */
  lemma SettledUnitsAre(u: Usage, w: Weights)
    returns (input: nat, output: nat, a: real, b: real, c: real, d: real, e: real, f: real, g: real, h: real)
    ensures IsPlainInput(u, input) && IsPlainOutput(u, output)
    ensures SettledUnits(u, w).Some? <==>
              && (input > 0 ==> Usable(w, Input)) && (output > 0 ==> Usable(w, Output))
              && (u.cached > 0 ==> Usable(w, Cached)) && (u.cacheWrite > 0 ==> Usable(w, CacheWrite))
              && (u.reasoning > 0 ==> Usable(w, Reasoning)) && (u.toolUse > 0 ==> Usable(w, ToolUse))
              && (u.imageInput > 0 ==> Usable(w, ImageInput)) && (u.imageOutput > 0 ==> Usable(w, ImageOutput))
    ensures SettledUnits(u, w).Some? ==>
              && IsPart(w, Input, input, a) && IsPart(w, Output, output, b)
              && IsPart(w, Cached, u.cached, c) && IsPart(w, CacheWrite, u.cacheWrite, d)
              && IsPart(w, Reasoning, u.reasoning, e) && IsPart(w, ToolUse, u.toolUse, f)
              && IsPart(w, ImageInput, u.imageInput, g) && IsPart(w, ImageOutput, u.imageOutput, h)
              && SettledUnits(u, w).value == a + b + c + d + e + f + g + h
  {
    PlainTokensAre(u);
    BillableByComponent(u, w);
    input, output := Amount(u, Input), Amount(u, Output);
    assert u.cached == Amount(u, Cached) && u.cacheWrite == Amount(u, CacheWrite) && u.reasoning == Amount(u, Reasoning);
    assert u.toolUse == Amount(u, ToolUse) && u.imageInput == Amount(u, ImageInput) && u.imageOutput == Amount(u, ImageOutput);
    assert forall x: Component :: Priced(w, x) <==> Usable(w, x);
    hide Amount, IsPlainInput, IsPlainOutput, Part, Usable, Priced, IsPart;
    a, b, c, d := Part(u, w, Input), Part(u, w, Output), Part(u, w, Cached), Part(u, w, CacheWrite);
    e, f, g, h := Part(u, w, Reasoning), Part(u, w, ToolUse), Part(u, w, ImageInput), Part(u, w, ImageOutput);
    if Billable(u, w) {
      forall x: Component ensures IsPart(w, x, Amount(u, x), Part(u, w, x)) {
        PartIs(u, w, x);
      }
    }
  }

  method AddPart(units: Option<real>, amount: Word, w: Weights, c: Component) returns (sum: Option<real>)
    ensures sum.None? <==> units.None? || (amount > 0 && !Priced(w, c))
    ensures sum.Some? ==> sum.value == units.value + Times(amount, WeightOf(w, c))
  {
    if units.None? || amount == 0 {
      return units;
    }
    if c !in w || !NonNegative(w[c]) {
      return None;
    }
    return Some(units.value + Times(amount, w[c].value));
  }

  /** The input total without the details it contains, and the output without the reasoning it contains. */
  method BillableTokens(u: Usage) returns (billableInput: Word, billableOutput: Word)
    ensures billableInput == Amount(u, Input) && billableOutput == Amount(u, Output)
  {
    billableInput := u.input;
    if u.cached > 0 || u.cacheWrite > 0 || u.toolUse > 0 {
      var detail := Wrap(Wrap(u.cached + u.cacheWrite) + u.toolUse);
      if billableInput >= detail {
        billableInput := billableInput - detail;
      }
    }
    billableOutput := u.output;
    if u.reasoningIncluded && u.reasoning > 0 && billableOutput >= u.reasoning {
      billableOutput := billableOutput - u.reasoning;
    }
  }

  /** Adds the eight components in the source's order; a billed component without a usable weight is an error. */
  method CalculateProviderUnits(u: Usage, w: Weights) returns (units: Option<real>)
    ensures units == SettledUnits(u, w)
  {
    var billableInput, billableOutput := BillableTokens(u);
    assert u.cached == Amount(u, Cached) && u.cacheWrite == Amount(u, CacheWrite) && u.reasoning == Amount(u, Reasoning);
    assert u.toolUse == Amount(u, ToolUse) && u.imageInput == Amount(u, ImageInput) && u.imageOutput == Amount(u, ImageOutput);
    BillableByComponent(u, w);
    hide Times, WeightOf, Priced, Billable, Amount;
    units := AddPart(Some(0.0), billableInput, w, Input);
    units := AddPart(units, billableOutput, w, Output);
    units := AddPart(units, u.cached, w, Cached);
    units := AddPart(units, u.cacheWrite, w, CacheWrite);
    units := AddPart(units, u.reasoning, w, Reasoning);
    units := AddPart(units, u.toolUse, w, ToolUse);
    units := AddPart(units, u.imageInput, w, ImageInput);
    units := AddPart(units, u.imageOutput, w, ImageOutput);
  }

  const INPUT_SIDE: seq<Component> := [Input, Cached, CacheWrite, ToolUse, ImageInput]
  const OUTPUT_SIDE: seq<Component> := [Output, Reasoning, ImageOutput]

  predicate Readable(w: Weights, keys: seq<Component>) {
    forall i | 0 <= i < |keys| && keys[i] in w :: NonNegative(w[keys[i]])
  }

  function Heaviest(w: Weights, keys: seq<Component>): (m: real)
    ensures m >= 0.0
  {
    if keys == [] then 0.0
    else
      var n := |keys| - 1;
      var rest := Heaviest(w, keys[..n]);
      if WeightOf(w, keys[n]) > rest then WeightOf(w, keys[n]) else rest
  }

  /** No key weighs more than the heaviest, and some key weighs as much unless the heaviest is zero. */
  lemma {:induction false} HeaviestIsMaximum(w: Weights, keys: seq<Component>)
    ensures forall c | c in keys :: WeightOf(w, c) <= Heaviest(w, keys)
    ensures Heaviest(w, keys) == 0.0 || exists c :: c in keys && WeightOf(w, c) == Heaviest(w, keys)
  {
    if keys != [] {
      var n := |keys| - 1;
      HeaviestIsMaximum(w, keys[..n]);
      assert keys == keys[..n] + [keys[n]];
    }
  }

  method MaxWeight(w: Weights, keys: seq<Component>) returns (m: Option<real>)
    ensures m == if Readable(w, keys) then Some(Heaviest(w, keys)) else None
  {
    var max := 0.0;
    var found := false;
    for i := 0 to |keys|
      invariant Readable(w, keys[..i])
      invariant max == Heaviest(w, keys[..i])
      invariant !found ==> max == 0.0
    {
      assert keys[..i + 1][..i] == keys[..i];
      var key := keys[i];
      if key !in w {
        continue;
      }
      if !NonNegative(w[key]) {
        return None;
      }
      if !found || w[key].value > max {
        max := w[key].value;
        found := true;
      }
    }
    assert keys[..|keys|] == keys;
    return Some(max);
  }

  function EstimatedUnits(w: Weights, inputTokens: Word, maxOutputTokens: Word): Option<real> {
    if Readable(w, INPUT_SIDE) && Readable(w, OUTPUT_SIDE)
    then Some(Times(inputTokens, Heaviest(w, INPUT_SIDE)) + Times(maxOutputTokens, Heaviest(w, OUTPUT_SIDE)))
    else None
  }

  method EstimateProviderUnits(w: Weights, inputTokens: Word, maxOutputTokens: Word) returns (units: Option<real>)
    ensures units == EstimatedUnits(w, inputTokens, maxOutputTokens)
  {
    hide Times, Heaviest, Readable;
    var inputWeight := MaxWeight(w, INPUT_SIDE);
    if inputWeight.None? {
      return None;
    }
    var outputWeight := MaxWeight(w, OUTPUT_SIDE);
    if outputWeight.None? {
      return None;
    }
    return Some(Times(inputTokens, inputWeight.value) + Times(maxOutputTokens, outputWeight.value));
  }

  lemma TimesGrows(n: nat, k: nat, w: real, m: real)
    requires n <= k && 0.0 <= w <= m
    ensures 0.0 <= Times(n, w) <= Times(k, m)
  {
    TimesIsMonotone(n as real, 0.0, w);
    TimesIsMonotone(n as real, w, m);
    TimesIsMonotone(m, n as real, k as real);
  }

  lemma TimesAdds(n: nat, k: nat, w: real)
    ensures Times(n + k, w) == Times(n, w) + Times(k, w)
  {
    assert (n + k) as real == n as real + k as real;
  }

  lemma InputSideIsBounded(u: Usage, w: Weights)
    ensures 0.0 <= InputSideUnits(u, w) <= Times(InputSideTokens(u), Heaviest(w, INPUT_SIDE))
  {
    hide Times, Heaviest, Amount, WeightOf;
    var m := Heaviest(w, INPUT_SIDE);
    HeaviestIsMaximum(w, INPUT_SIDE);
    var a: nat, b: nat, c: nat, d: nat, e: nat := Amount(u, Input), Amount(u, Cached), Amount(u, CacheWrite),
      Amount(u, ToolUse), Amount(u, ImageInput);
    TimesGrows(a, a, WeightOf(w, Input), m);
    TimesGrows(b, b, WeightOf(w, Cached), m);
    TimesGrows(c, c, WeightOf(w, CacheWrite), m);
    TimesGrows(d, d, WeightOf(w, ToolUse), m);
    TimesGrows(e, e, WeightOf(w, ImageInput), m);
    TimesAdds(a, b, m);
    TimesAdds(a + b, c, m);
    TimesAdds(a + b + c, d, m);
    TimesAdds(a + b + c + d, e, m);
  }

  lemma OutputSideIsBounded(u: Usage, w: Weights)
    ensures 0.0 <= OutputSideUnits(u, w) <= Times(OutputSideTokens(u), Heaviest(w, OUTPUT_SIDE))
  {
    hide Times, Heaviest, Amount, WeightOf;
    var m := Heaviest(w, OUTPUT_SIDE);
    HeaviestIsMaximum(w, OUTPUT_SIDE);
    var a: nat, b: nat, c: nat := Amount(u, Output), Amount(u, Reasoning), Amount(u, ImageOutput);
    TimesGrows(a, a, WeightOf(w, Output), m);
    TimesGrows(b, b, WeightOf(w, Reasoning), m);
    TimesGrows(c, c, WeightOf(w, ImageOutput), m);
    TimesAdds(a, b, m);
    TimesAdds(a + b, c, m);
  }

  /** Usage within the admission token estimates settles to no more units than were estimated. */
  lemma EstimateCoversUnits(u: Usage, w: Weights, inputTokens: Word, maxOutputTokens: Word)
    requires EstimatedUnits(w, inputTokens, maxOutputTokens).Some?
    requires InputSideTokens(u) <= inputTokens && OutputSideTokens(u) <= maxOutputTokens
    ensures 0.0 <= InputSideUnits(u, w) + OutputSideUnits(u, w) <= EstimatedUnits(w, inputTokens, maxOutputTokens).value
  {
    hide Times, Heaviest, InputSideUnits, OutputSideUnits, InputSideTokens, OutputSideTokens, Readable;
    InputSideIsBounded(u, w);
    OutputSideIsBounded(u, w);
    TimesGrows(InputSideTokens(u), inputTokens, Heaviest(w, INPUT_SIDE), Heaviest(w, INPUT_SIDE));
    TimesGrows(OutputSideTokens(u), maxOutputTokens, Heaviest(w, OUTPUT_SIDE), Heaviest(w, OUTPUT_SIDE));
  }

  // ---------------------------------------------------------------------------------------------
  // Gwei, Credits and wei

  const GWEI: real := 1000000000.0

  /** A maximum price must come to at least one whole Gwei. */
  function MaxFeeGwei(price: Decimal): Option<nat> {
    if Positive(price) && (price.value * GWEI).Floor > 0 then Some((price.value * GWEI).Floor) else None
  }

  /** A minimum price may be zero, which switches the minimum off. */
  function MinFeeGwei(price: Decimal): Option<nat> {
    if NonNegative(price) then
      FloorIsMonotone(0.0, price.value * GWEI);
      Some((price.value * GWEI).Floor)
    else None
  }

  function Capped(billable: real, maxFee: nat): real {
    if billable > maxFee as real then maxFee as real else billable
  }

  function BillableGwei(priority: int, units: real, price: Decimal): Option<real> {
    if priority <= 0 || units < 0.0 || MaxFeeGwei(price).None? then None
    else Some(Capped(priority as real * units, MaxFeeGwei(price).value))
  }

  function AtLeastOne(credits: int): int { if credits <= 0 then 1 else credits }

  /** max(1, floor(billable * rate)). */
  function CreditsOf(billable: real, rate: real): int { AtLeastOne((billable * rate).Floor) }

  function ConsumerCredits(billable: real, rate: Decimal): Option<int> {
    if billable < 0.0 || !NonNegative(rate) then None else Some(CreditsOf(billable, rate.value))
  }

  function EarningWei(billable: real): int {
    if billable <= 0.0 then 0 else (billable * GWEI).Floor
  }

  // ---------------------------------------------------------------------------------------------
  // Estimate against settlement

  /** What a Provider job stores at admission and settles from. */
  datatype Snapshot = Snapshot(
    weights: Weights, priority: int, rate: Decimal, price: Decimal, inputTokens: Word, maxOutputTokens: Word)

  function Credits(s: Snapshot, units: Option<real>): Option<int> {
    if units.None? then None
    else
      var billable := BillableGwei(s.priority, units.value, s.price);
      if billable.None? then None else ConsumerCredits(billable.value, s.rate)
  }

  function QuotedUnits(s: Snapshot): Option<real> { EstimatedUnits(s.weights, s.inputTokens, s.maxOutputTokens) }

  /** The Credits admission locks. */
  function QuotedCredits(s: Snapshot): Option<int> { Credits(s, QuotedUnits(s)) }

  /** The Credits settlement charges. */
  function SettledCredits(s: Snapshot, u: Usage): Option<int> { Credits(s, SettledUnits(u, s.weights)) }

  /** The wei settlement pays the key owner. */
  function SettledWei(s: Snapshot, u: Usage): int {
    match SettledUnits(u, s.weights)
    case None => 0
    case Some(units) =>
      match BillableGwei(s.priority, units, s.price)
      case None => 0
      case Some(billable) => EarningWei(billable)
  }

  lemma CreditsGrow(a: real, b: real, rate: real)
    requires a <= b && 0.0 <= rate
    ensures 1 <= CreditsOf(a, rate) <= CreditsOf(b, rate)
  {
    TimesIsMonotone(rate, a, b);
    ProductsFloor(a, b, rate, a * rate, b * rate);
  }

  lemma ProductsFloor(a: real, b: real, rate: real, x: real, y: real)
    requires a <= b && 0.0 <= rate && x == a * rate && y == b * rate
    ensures x.Floor <= y.Floor
  {
    TimesIsMonotone(rate, a, b);
    FloorIsMonotone(x, y);
  }

  lemma BillableGrows(priority: int, x: real, y: real, price: Decimal)
    requires 0.0 <= x <= y && BillableGwei(priority, y, price).Some?
    ensures BillableGwei(priority, x, price).Some?
    ensures 0.0 <= BillableGwei(priority, x, price).value <= BillableGwei(priority, y, price).value
  {
    hide MaxFeeGwei, Capped;
    var maxFee := MaxFeeGwei(price).value;
    var lo, hi := priority as real * x, priority as real * y;
    assert BillableGwei(priority, x, price).value == Capped(lo, maxFee);
    assert BillableGwei(priority, y, price).value == Capped(hi, maxFee);
    assert 0.0 <= lo <= hi by {
      TimesIsMonotone(priority as real, 0.0, x);
      TimesIsMonotone(priority as real, x, y);
    }
    CappedGrows(lo, hi, maxFee);
  }

  lemma CappedGrows(x: real, y: real, maxFee: nat)
    requires 0.0 <= x <= y
    ensures 0.0 <= Capped(x, maxFee) <= Capped(y, maxFee)
  {
  }

  /** More units never cost fewer Credits, and Credits are at least one. */
  lemma CreditsAreMonotone(s: Snapshot, x: real, y: real)
    requires 0.0 <= x <= y && Credits(s, Some(y)).Some?
    ensures Credits(s, Some(x)).Some? && 1 <= Credits(s, Some(x)).value <= Credits(s, Some(y)).value
  {
    hide BillableGwei, CreditsOf;
    BillableGrows(s.priority, x, y, s.price);
    CreditsGrow(BillableGwei(s.priority, x, s.price).value, BillableGwei(s.priority, y, s.price).value, s.rate.value);
  }

  /**
   A quoted job whose real usage stays within its token estimates and uses only weighted components settles,
   for no more Credits than were quoted.
   */
  lemma QuoteCoversSettlement(s: Snapshot, u: Usage)
    requires QuotedCredits(s).Some? && Billable(u, s.weights)
    requires InputSideTokens(u) <= s.inputTokens && OutputSideTokens(u) <= s.maxOutputTokens
    ensures SettledUnits(u, s.weights).value <= QuotedUnits(s).value
    ensures SettledCredits(s, u).Some? && 1 <= SettledCredits(s, u).value <= QuotedCredits(s).value
  {
    EstimateCoversUnits(u, s.weights, s.inputTokens, s.maxOutputTokens);
    CreditsAreMonotone(s, SettledUnits(u, s.weights).value, QuotedUnits(s).value);
  }

  lemma SettledUnitsAreNonNegative(u: Usage, w: Weights)
    ensures 0.0 <= InputSideUnits(u, w) + OutputSideUnits(u, w)
  {
    InputSideIsBounded(u, w);
    OutputSideIsBounded(u, w);
  }

  lemma EveryComponentHasASide(c: Component)
    ensures (exists i :: 0 <= i < |INPUT_SIDE| && INPUT_SIDE[i] == c) || (exists i :: 0 <= i < |OUTPUT_SIDE| && OUTPUT_SIDE[i] == c)
  {
    assert INPUT_SIDE[0] == Input && INPUT_SIDE[1] == Cached && INPUT_SIDE[2] == CacheWrite && INPUT_SIDE[3] == ToolUse
           && INPUT_SIDE[4] == ImageInput;
    assert OUTPUT_SIDE[0] == Output && OUTPUT_SIDE[1] == Reasoning && OUTPUT_SIDE[2] == ImageOutput;
  }

  /** A quoted job fails to settle exactly when a billed component has no weight at all. */
  lemma SettlesIff(s: Snapshot, u: Usage)
    requires QuotedCredits(s).Some?
    ensures SettledCredits(s, u).Some? <==> forall c: Component :: Amount(u, c) > 0 ==> c in s.weights
  {
    hide Times, Heaviest, Amount, InputSideUnits, OutputSideUnits;
    forall c: Component | c in s.weights ensures Priced(s.weights, c) {
      EveryComponentHasASide(c);
    }
    if Billable(u, s.weights) {
      SettledUnitsAreNonNegative(u, s.weights);
      var units := SettledUnits(u, s.weights).value;
      TimesIsMonotone(s.priority as real, 0.0, units);
    }
  }

  /** Weights that price the input side at x and the output side at y. */
  function Sided(x: real, y: real): Weights {
    var p, q := Decimal.Number(x), Decimal.Number(y);
    map[Input := p, Cached := p, CacheWrite := p, ToolUse := p, ImageInput := p, Output := q, Reasoning := q, ImageOutput := q]
  }

  lemma WeightsBySide(x: real, y: real)
    requires 0.0 <= x && 0.0 <= y
    ensures var w := Sided(x, y);
            && WeightOf(w, Input) == WeightOf(w, Cached) == WeightOf(w, CacheWrite) == x
            && WeightOf(w, ToolUse) == WeightOf(w, ImageInput) == x
            && WeightOf(w, Output) == WeightOf(w, Reasoning) == WeightOf(w, ImageOutput) == y
  {
  }

  lemma SidedWeights(x: real, y: real)
    requires 0.0 <= x && 0.0 <= y
    ensures forall c: Component :: Priced(Sided(x, y), c)
    ensures Heaviest(Sided(x, y), INPUT_SIDE) == x && Heaviest(Sided(x, y), OUTPUT_SIDE) == y
  {
    var w := Sided(x, y);
    forall c: Component ensures Priced(w, c) {
      match c
      case Input =>
      case Output =>
      case Cached =>
      case CacheWrite =>
      case Reasoning =>
      case ToolUse =>
      case ImageInput =>
      case ImageOutput =>
    }
    WeightsBySide(x, y);
    assert INPUT_SIDE[0] == Input && OUTPUT_SIDE[0] == Output;
    hide WeightOf, Sided;
    HeaviestIsMaximum(w, INPUT_SIDE);
    HeaviestIsMaximum(w, OUTPUT_SIDE);
  }

  lemma SidedUnits(u: Usage, x: real, y: real, inputTokens: Word, maxOutputTokens: Word)
    requires 0.0 <= x && 0.0 <= y
    ensures Billable(u, Sided(x, y))
    ensures SettledUnits(u, Sided(x, y)) == Some(Times(InputSideTokens(u), x) + Times(OutputSideTokens(u), y))
    ensures EstimatedUnits(Sided(x, y), inputTokens, maxOutputTokens) == Some(Times(inputTokens, x) + Times(maxOutputTokens, y))
  {
    SidedWeights(x, y);
    SidedInput(u, x, y);
    SidedOutput(u, x, y);
    hide Times, Heaviest, Amount, WeightOf, Sided, InputSideUnits, OutputSideUnits, InputSideTokens, OutputSideTokens;
  }

  lemma SidedInput(u: Usage, x: real, y: real)
    requires 0.0 <= x && 0.0 <= y
    ensures InputSideUnits(u, Sided(x, y)) == Times(InputSideTokens(u), x)
  {
    WeightsBySide(x, y);
    hide Times, Heaviest, Amount, WeightOf, Sided;
    var a: nat, b: nat, c: nat, d: nat, e: nat := Amount(u, Input), Amount(u, Cached), Amount(u, CacheWrite),
      Amount(u, ToolUse), Amount(u, ImageInput);
    TimesAdds(a, b, x);
    TimesAdds(a + b, c, x);
    TimesAdds(a + b + c, d, x);
    TimesAdds(a + b + c + d, e, x);
  }

  lemma SidedOutput(u: Usage, x: real, y: real)
    requires 0.0 <= x && 0.0 <= y
    ensures OutputSideUnits(u, Sided(x, y)) == Times(OutputSideTokens(u), y)
  {
    WeightsBySide(x, y);
    hide Times, Heaviest, Amount, WeightOf, Sided;
    TimesAdds(Amount(u, Output), Amount(u, Reasoning), y);
    TimesAdds(Amount(u, Output) + Amount(u, Reasoning), Amount(u, ImageOutput), y);
  }

  /** At priority 2, one Credit a Gwei and a maximum price out of reach, n units cost 2n Credits, or one. */
  lemma PlainCredits(s: Snapshot, n: nat, top: nat)
    requires s.priority == 2 && s.rate == Decimal.Number(1.0) && s.price == Decimal.Number((2 * top + 1) as real) && n <= top
    ensures Credits(s, Some(n as real)) == Some(AtLeastOne(2 * n))
  {
    var max := (2 * top + 1) * 1000000000;
    assert (2 * top + 1) as real * GWEI == max as real;
    assert MaxFeeGwei(s.price) == Some(max);
    assert 2 as real * n as real == (2 * n) as real;
    assert BillableGwei(s.priority, n as real, s.price) == Some((2 * n) as real);
  }

  /** Tokens beyond an estimate let some snapshot settle for more than it was quoted. */
  lemma OverrunEscapes(u: Usage, inputTokens: Word, maxOutputTokens: Word) returns (s: Snapshot)
    requires InputSideTokens(u) > inputTokens || OutputSideTokens(u) > maxOutputTokens
    ensures s.inputTokens == inputTokens && s.maxOutputTokens == maxOutputTokens
    ensures QuotedCredits(s).Some? && Billable(u, s.weights)
    ensures SettledCredits(s, u).Some? && SettledCredits(s, u).value > QuotedCredits(s).value
  {
    var input := InputSideTokens(u) > inputTokens;
    var x, y := if input then 1.0 else 0.0, if input then 0.0 else 1.0;
    var quoted: nat, settled: nat := if input then inputTokens else maxOutputTokens, if input then InputSideTokens(u) else OutputSideTokens(u);
    s := Snapshot(Sided(x, y), 2, Decimal.Number(1.0), Decimal.Number((2 * settled + 1) as real), inputTokens, maxOutputTokens);
    SidedUnits(u, x, y, inputTokens, maxOutputTokens);
    hide SettledUnits, EstimatedUnits, InputSideTokens, OutputSideTokens, Credits, Billable, Sided;
    assert QuotedUnits(s) == Some(quoted as real);
    assert SettledUnits(u, s.weights) == Some(settled as real);
    PlainCredits(s, quoted, settled);
    PlainCredits(s, settled, settled);
  }

  /**
   The quote covers the settlement of a usage under every snapshot with these estimates exactly when the usage
   stays within both estimates.
   */
  lemma QuoteCoversIff(u: Usage, inputTokens: Word, maxOutputTokens: Word)
    ensures (forall s: Snapshot |
               s.inputTokens == inputTokens && s.maxOutputTokens == maxOutputTokens
               && QuotedCredits(s).Some? && Billable(u, s.weights) ::
               SettledCredits(s, u).Some? && SettledCredits(s, u).value <= QuotedCredits(s).value)
            <==> InputSideTokens(u) <= inputTokens && OutputSideTokens(u) <= maxOutputTokens
  {
    hide QuotedCredits, SettledCredits, Billable, InputSideTokens, OutputSideTokens, SettledUnits, QuotedUnits;
    if InputSideTokens(u) <= inputTokens && OutputSideTokens(u) <= maxOutputTokens {
      forall s: Snapshot |
        s.inputTokens == inputTokens && s.maxOutputTokens == maxOutputTokens
        && QuotedCredits(s).Some? && Billable(u, s.weights)
        ensures SettledCredits(s, u).Some? && SettledCredits(s, u).value <= QuotedCredits(s).value
      {
        QuoteCoversSettlement(s, u);
      }
    } else {
      var s := OverrunEscapes(u, inputTokens, maxOutputTokens);
    }
  }

  // ---------------------------------------------------------------------------------------------
  // What the conversions mean

  /** A maximum price is usable exactly when it comes to a whole Gwei; a CNX is 10^9 Gwei, and the rest is cut off. */
  lemma MaxFeeIs(price: Decimal)
    ensures MaxFeeGwei(price).None? <==> !price.Number? || price.value * 1000000000.0 < 1.0
    ensures MaxFeeGwei(price).Some? ==> IsGweiOf(price, MaxFeeGwei(price).value) && MaxFeeGwei(price).value >= 1
  {
    if price.Number? && price.value <= 0.0 {
      TimesIsMonotone(1000000000.0, price.value, 0.0);
    }
  }

  /** A minimum price is usable exactly when it is not negative. */
  lemma MinFeeIs(price: Decimal)
    ensures MinFeeGwei(price).None? <==> !price.Number? || price.value < 0.0
    ensures MinFeeGwei(price).Some? ==> IsGweiOf(price, MinFeeGwei(price).value)
  {
  }

  /** So many whole Gwei are in the price. */
  ghost predicate IsGweiOf(price: Decimal, gwei: int) {
    price.Number? && gwei as real <= price.value * 1000000000.0 < gwei as real + 1.0
  }

  lemma GweiIsUnique(price: Decimal, m: int, n: int)
    requires IsGweiOf(price, m) && IsGweiOf(price, n)
    ensures m == n
  {
  }

  /** The fee in Gwei: priority times units, but no more than the maximum. */
  ghost predicate IsFee(priority: int, units: real, maxFee: nat, fee: real) {
    var uncapped := priority as real * units;
    (uncapped <= maxFee as real && fee == uncapped) || (maxFee as real < uncapped && fee == maxFee as real)
  }

  /** Units are billed exactly at a positive priority under a usable maximum price. */
  lemma BillableIs(priority: int, units: real, price: Decimal)
    ensures BillableGwei(priority, units, price).Some?
            <==> priority > 0 && units >= 0.0 && price.Number? && price.value * 1000000000.0 >= 1.0
    ensures BillableGwei(priority, units, price).Some? ==>
              exists maxFee: nat :: IsGweiOf(price, maxFee) && IsFee(priority, units, maxFee, BillableGwei(priority, units, price).value)
  {
    MaxFeeIs(price);
    hide MaxFeeGwei;
    if BillableGwei(priority, units, price).Some? {
      assert IsFee(priority, units, MaxFeeGwei(price).value, BillableGwei(priority, units, price).value);
    }
  }

  /** The consumer's Credits and the owner's wei for some units, from the job's priority, price and rate. */
  ghost predicate IsCharge(s: Snapshot, units: real, maxFee: nat, fee: real, credits: int) {
    && s.priority > 0 && units >= 0.0 && s.rate.Number? && s.rate.value >= 0.0
    && IsGweiOf(s.price, maxFee) && maxFee >= 1 && IsFee(s.priority, units, maxFee, fee)
    && credits >= 1 && fee * s.rate.value < credits as real + 1.0
    && (credits as real <= fee * s.rate.value || credits == 1)
  }

  /** Pricing fails exactly on a priority, price or rate that cannot be used, and otherwise is the fee at the rate. */
  lemma CreditsAre(s: Snapshot, units: real)
    ensures Credits(s, Some(units)).Some?
            <==> s.priority > 0 && units >= 0.0 && s.price.Number? && s.price.value * 1000000000.0 >= 1.0
                 && s.rate.Number? && s.rate.value >= 0.0
    ensures Credits(s, Some(units)).Some? ==>
              exists maxFee: nat, fee: real :: IsCharge(s, units, maxFee, fee, Credits(s, Some(units)).value)
  {
    BillableIs(s.priority, units, s.price);
    BillableIsNonNegative(s.priority, units, s.price);
    hide BillableGwei, CreditsOf;
    if Credits(s, Some(units)).Some? {
      var fee := BillableGwei(s.priority, units, s.price).value;
      var maxFee: nat :| IsGweiOf(s.price, maxFee) && IsFee(s.priority, units, maxFee, fee);
      CreditsAreTheFee(fee, s.rate.value);
      assert IsCharge(s, units, maxFee, fee, Credits(s, Some(units)).value);
    }
  }

  lemma BillableIsNonNegative(priority: int, units: real, price: Decimal)
    ensures BillableGwei(priority, units, price).Some? ==> BillableGwei(priority, units, price).value >= 0.0
  {
    if BillableGwei(priority, units, price).Some? {
      TimesIsMonotone(priority as real, 0.0, units);
    }
  }

  /**
   The owner is paid the post-cap fee to within one wei, a Gwei being 10^9 wei, and never more than the maximum price
   in whole Gwei.
   */
  lemma WeiIsTheFee(s: Snapshot, u: Usage)
    requires SettledCredits(s, u).Some?
    ensures exists maxFee: nat, fee: real ::
              && IsCharge(s, SettledUnits(u, s.weights).value, maxFee, fee, SettledCredits(s, u).value)
              && SettledWei(s, u) as real <= fee * 1000000000.0 < SettledWei(s, u) as real + 1.0
              && 0 <= SettledWei(s, u) <= maxFee * 1000000000
  {
    hide SettledUnits, MaxFeeGwei;
    var units := SettledUnits(u, s.weights).value;
    CreditsAre(s, units);
    BillableIsNonNegative(s.priority, units, s.price);
    var maxFee: nat, fee: real :| IsCharge(s, units, maxFee, fee, Credits(s, Some(units)).value);
    FeeIsBillable(s, units, maxFee, fee, Credits(s, Some(units)).value);
    hide BillableGwei, IsFee;
    assert SettledWei(s, u) == EarningWei(fee);
    WeiBounds(fee, maxFee);
  }

  lemma FeeIsBillable(s: Snapshot, units: real, maxFee: nat, fee: real, credits: int)
    requires IsCharge(s, units, maxFee, fee, credits)
    ensures BillableGwei(s.priority, units, s.price) == Some(fee) && 0.0 <= fee <= maxFee as real
  {
    CapOfPrice(s.price, maxFee);
    var uncapped := s.priority as real * units;
    NotNegative(s.priority, units, uncapped);
    hide MaxFeeGwei, IsGweiOf, Capped, IsFee;
    BilledAs(s.priority, units, s.price, maxFee, uncapped);
    FeeIsCapped(s.priority, units, maxFee, fee, uncapped);
  }

  lemma CapOfPrice(price: Decimal, maxFee: nat)
    requires IsGweiOf(price, maxFee) && maxFee >= 1
    ensures MaxFeeGwei(price) == Some(maxFee)
  {
    MaxFeeIs(price);
    GweiIsUnique(price, maxFee, MaxFeeGwei(price).value);
  }

  lemma NotNegative(priority: int, units: real, uncapped: real)
    requires priority > 0 && units >= 0.0 && uncapped == priority as real * units
    ensures 0.0 <= uncapped
  {
    TimesIsMonotone(priority as real, 0.0, units);
  }

  lemma BilledAs(priority: int, units: real, price: Decimal, maxFee: nat, uncapped: real)
    requires priority > 0 && units >= 0.0 && MaxFeeGwei(price) == Some(maxFee) && uncapped == priority as real * units
    ensures BillableGwei(priority, units, price) == Some(Capped(uncapped, maxFee))
  {
    hide MaxFeeGwei, Capped;
  }

  lemma FeeIsCapped(priority: int, units: real, maxFee: nat, fee: real, uncapped: real)
    requires uncapped == priority as real * units && 0.0 <= uncapped && IsFee(priority, units, maxFee, fee)
    ensures fee == Capped(uncapped, maxFee) && 0.0 <= fee <= maxFee as real
  {
  }

  lemma WeiBounds(fee: real, max: nat)
    requires 0.0 <= fee <= max as real
    ensures EarningWei(fee) as real <= fee * 1000000000.0 < EarningWei(fee) as real + 1.0
    ensures 0 <= EarningWei(fee) <= max * 1000000000
  {
    TimesIsMonotone(GWEI, fee, max as real);
    FloorIsMonotone(fee * GWEI, max as real * GWEI);
    assert max as real * GWEI == (max * 1000000000) as real;
  }

  /** The consumer pays the fee at the configured rate, rounded down, but at least one Credit. */
  lemma CreditsAreTheFee(billable: real, rate: real)
    requires 0.0 <= billable && 0.0 <= rate
    ensures CreditsOf(billable, rate) >= 1 && billable * rate < CreditsOf(billable, rate) as real + 1.0
    ensures CreditsOf(billable, rate) as real <= billable * rate || (CreditsOf(billable, rate) == 1 && billable * rate < 1.0)
  {
  }

  // ---------------------------------------------------------------------------------------------
  // The estimate is no more than it has to be

  /** Usage with all input on one component and all output on another. */
  function UsageOn(inputs: nat, c: Component, outputs: nat, d: Component): Usage
    requires inputs < WORD && outputs < WORD
  {
    Usage(
      if c.ImageInput? then 0 else inputs, if d.ImageOutput? then 0 else outputs,
      if c.Cached? then inputs else 0, if c.CacheWrite? then inputs else 0,
      if d.Reasoning? then outputs else 0, if c.ToolUse? then inputs else 0,
      if c.ImageInput? then inputs else 0, if d.ImageOutput? then outputs else 0, true)
  }

  lemma TimesZero(w: real)
    ensures Times(0, w) == 0.0
  {
  }

  lemma UsageOnInput(inputs: Word, c: Component, outputs: Word, d: Component, w: Weights)
    requires c.Input? || c.Cached? || c.CacheWrite? || c.ToolUse? || c.ImageInput?
    ensures var u := UsageOn(inputs, c, outputs, d);
            InputSideTokens(u) == inputs && InputSideUnits(u, w) == Times(inputs, WeightOf(w, c))
  {
    hide Times, WeightOf;
    TimesZero(WeightOf(w, Input));
    TimesZero(WeightOf(w, Cached));
    TimesZero(WeightOf(w, CacheWrite));
    TimesZero(WeightOf(w, ToolUse));
    TimesZero(WeightOf(w, ImageInput));
  }

  lemma UsageOnOutput(inputs: Word, c: Component, outputs: Word, d: Component, w: Weights)
    requires d.Output? || d.Reasoning? || d.ImageOutput?
    ensures var u := UsageOn(inputs, c, outputs, d);
            OutputSideTokens(u) == outputs && OutputSideUnits(u, w) == Times(outputs, WeightOf(w, d))
  {
    hide Times, WeightOf;
    TimesZero(WeightOf(w, Output));
    TimesZero(WeightOf(w, Reasoning));
    TimesZero(WeightOf(w, ImageOutput));
  }

  /** A component of the side that carries its greatest weight. */
  lemma HeaviestIsCarried(w: Weights, keys: seq<Component>) returns (c: Component)
    requires keys != []
    ensures c in keys && WeightOf(w, c) == Heaviest(w, keys)
  {
    HeaviestIsMaximum(w, keys);
    if k :| k in keys && WeightOf(w, k) == Heaviest(w, keys) {
      c := k;
    } else {
      c := keys[0];
      assert c in keys;
    }
  }

  /** Some usage with exactly the estimated tokens settles to exactly the estimated units: no smaller estimate covers. */
  lemma EstimateIsAttained(w: Weights, inputTokens: Word, maxOutputTokens: Word)
    requires EstimatedUnits(w, inputTokens, maxOutputTokens).Some?
    ensures exists u: Usage ::
              InputSideTokens(u) == inputTokens && OutputSideTokens(u) == maxOutputTokens
              && InputSideUnits(u, w) + OutputSideUnits(u, w) == EstimatedUnits(w, inputTokens, maxOutputTokens).value
  {
    hide Times, WeightOf, Heaviest, InputSideUnits, OutputSideUnits, InputSideTokens, OutputSideTokens;
    var c := HeaviestIsCarried(w, INPUT_SIDE);
    var d := HeaviestIsCarried(w, OUTPUT_SIDE);
    UsageOnInput(inputTokens, c, maxOutputTokens, d, w);
    UsageOnOutput(inputTokens, c, maxOutputTokens, d, w);
    var u := UsageOn(inputTokens, c, maxOutputTokens, d);
    assert InputSideTokens(u) == inputTokens;
  }
}
