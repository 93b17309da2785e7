/** The verdict on one matched request: what the upstream's displayed prices make of its tokens,
    against what it charged.  Amounts are exact reals; the only rounding is the program's own
    `round(x, 10)`. */
module BillingRules {

  import opened Options

  datatype Tokens = Tokens(prompt: nat, completion: nat, cacheRead: nat, cacheCreation: nat)

  /** A model's entry in the upstream's published price card. */
  datatype Card = Card(
    modelRatio: Option<real>,
    quotaType: real,
    modelPrice: Option<real>,
    completionRatio: Option<real>)

  const SCALE := 10_000_000_000.0
  const HALF_STEP := 0.000_000_000_05

  /** `round(x, 10)`: to the nearest, ties to even. */
  function Round10(x: real): real {
    var n := (x * SCALE).Floor;
    var part := x * SCALE - n as real;
    var up := part > 0.5 || (part == 0.5 && n % 2 == 1);
    (if up then n + 1 else n) as real / SCALE
  }

  /** A missing or zero ratio counts as 1. */
  function OrOne(ratio: Option<real>): real {
    if ratio.Some? && ratio.value != 0.0 then ratio.value else 1.0
  }

  function CacheRatio(hint: Option<real>): real {
    if hint.Some? then hint.value else 1.0
  }

  /** The four kinds of tokens in units of uncached input. */
  function Weighted(t: Tokens, completionRatio: real, cacheRatio: real): real {
    var cacheRead := if t.cacheRead < t.prompt then t.cacheRead else t.prompt;
    var uncached := t.prompt - cacheRead;
    uncached as real + t.cacheCreation as real + cacheRead as real * cacheRatio
      + t.completion as real * completionRatio
  }

  predicate Priced(card: Option<Card>) {
    card.Some? && card.value.modelRatio.Some? && card.value.modelRatio.value > 0.0
  }

  predicate PerCall(card: Option<Card>) {
    card.Some? && card.value.quotaType == 1.0
  }

  /** The quota before the group ratio, not yet converted or rounded. */
  function ListQuota(t: Tokens, card: Card, cacheHint: Option<real>): real
    requires card.modelRatio.Some?
  {
    Weighted(t, OrOne(card.completionRatio), CacheRatio(cacheHint)) * card.modelRatio.value
  }

  /** `newapiListCostUsd` */
  function ListCost(t: Tokens, card: Option<Card>, cacheHint: Option<real>, quotaPerUnit: real): Option<real>
    requires quotaPerUnit > 0.0
  {
    if !Priced(card) then None
    else if PerCall(card) then
      if card.value.modelPrice.Some? && card.value.modelPrice.value != 0.0
      then Some(Round10(card.value.modelPrice.value / quotaPerUnit)) else None
    else Some(Round10(ListQuota(t, card.value, cacheHint) / quotaPerUnit))
  }

  datatype Drift = Red | Clear | NotRunnable

  function Max(a: real, b: real): real {
    if a < b then b else a
  }

  function Abs(a: real): real {
    if a < 0.0 then -a else a
  }

  function Expected(listCost: real, displayed: real): real {
    listCost * displayed
  }

  /** What a charge may exceed the expected one by. */
  function Band(expected: real, tol: real, allowance: real): real {
    Max(Abs(expected) * tol, allowance)
  }

  /** `judgeRatioDrift` */
  function Judge(actual: real, listCost: real, displayed: Option<real>, tol: real, allowance: real): Drift {
    if listCost <= 0.0 || displayed.None? then NotRunnable
    else
      var expected := Expected(listCost, displayed.value);
      if actual - expected > Band(expected, tol, allowance) then Red else Clear
  }

  /** The verdict on a NewAPI upstream's log that charged `quota`. */
  function JudgeQuota(quota: nat, t: Tokens, card: Option<Card>, cacheHint: Option<real>, displayed: Option<real>,
                      tol: real, quotaPerUnit: real): Drift
    requires quotaPerUnit > 0.0
  {
    var listCost := ListCost(t, card, cacheHint, quotaPerUnit);
    if listCost.None? then NotRunnable
    else Judge(quota as real / quotaPerUnit, listCost.value, displayed, tol, 0.5 / quotaPerUnit)
  }

  lemma FloorBounds(x: real)
    ensures x.Floor as real <= x < x.Floor as real + 1.0
  {
  }

  lemma Round10Near(x: real)
    ensures -HALF_STEP <= Round10(x) - x <= HALF_STEP
  {
    FloorBounds(x * SCALE);
    var r := Round10(x);
    assert -0.5 <= r * SCALE - x * SCALE <= 0.5;
  }

  lemma Round10Monotone(x: real, y: real)
    requires x <= y
    ensures Round10(x) <= Round10(y)
  {
    FloorBounds(x * SCALE);
    FloorBounds(y * SCALE);
    var m, n := (x * SCALE).Floor, (y * SCALE).Floor;
    assert x * SCALE <= y * SCALE;
    assert m <= n;
  }

  /** Halfway cases go to the even digit. */
  lemma Round10Means(x: real) returns (n: int)
    ensures Round10(x) == n as real / SCALE
    ensures -0.5 <= n as real - x * SCALE <= 0.5
    ensures n as real - x * SCALE == 0.5 || n as real - x * SCALE == -0.5 ==> n % 2 == 0
  {
    FloorBounds(x * SCALE);
    var f := (x * SCALE).Floor;
    var part := x * SCALE - f as real;
    n := if part > 0.5 || (part == 0.5 && f % 2 == 1) then f + 1 else f;
  }

  // ---------------------------------------------------------------------------------------
  // What tokens cost
  // ---------------------------------------------------------------------------------------

  /** No tokens weigh nothing, and what one more token of each kind adds: a completion token its ratio, a
      token written to the cache 1, a prompt token 1, or the cache ratio if more cache reads are reported
      than there are prompt tokens, and a cache read the difference to an ordinary prompt token. */
  lemma TokenWeights(t: Tokens, completionRatio: real, cacheRatio: real)
    ensures Weighted(Tokens(0, 0, 0, 0), completionRatio, cacheRatio) == 0.0
    ensures var w := Weighted(t, completionRatio, cacheRatio);
            && Weighted(t.(completion := t.completion + 1), completionRatio, cacheRatio) - w == completionRatio
            && Weighted(t.(cacheCreation := t.cacheCreation + 1), completionRatio, cacheRatio) - w == 1.0
            && Weighted(t.(prompt := t.prompt + 1), completionRatio, cacheRatio) - w
                 == (if t.cacheRead > t.prompt then cacheRatio else 1.0)
            && Weighted(t.(cacheRead := t.cacheRead + 1), completionRatio, cacheRatio) - w
                 == (if t.cacheRead < t.prompt then cacheRatio - 1.0 else 0.0)
  {
    OneMore(t.completion, completionRatio);
    OneMore(t.cacheRead, cacheRatio);
    OneMore(t.prompt, cacheRatio);
    assert 0 as real * cacheRatio == 0.0 && 0 as real * completionRatio == 0.0;
  }

  lemma OneMore(n: nat, ratio: real)
    ensures (n + 1) as real * ratio == n as real * ratio + ratio
  {
  }

  /** The ratio of a kind of tokens, 1 where the card or the log has none. */
  function RatioOr1(ratio: Option<real>): real {
    match ratio
    case Some(r) => r
    case None => 1.0
  }

  /** A completion ratio of 0 counts as missing; a cache ratio of 0 does not. */
  function CompletionRatioOf(card: Card): real {
    if card.completionRatio == Some(0.0) then 1.0 else RatioOr1(card.completionRatio)
  }

  /** The quota of a request is that of its tokens: nothing for none, and for one more token of each kind
      the card's model ratio times what that kind weighs. */
  lemma TokenQuotas(t: Tokens, card: Card, cacheHint: Option<real>)
    requires card.modelRatio.Some?
    ensures ListQuota(Tokens(0, 0, 0, 0), card, cacheHint) == 0.0
    ensures var q, m := ListQuota(t, card, cacheHint), card.modelRatio.value;
            && ListQuota(t.(completion := t.completion + 1), card, cacheHint) - q == CompletionRatioOf(card) * m
            && ListQuota(t.(cacheCreation := t.cacheCreation + 1), card, cacheHint) - q == m
            && (t.cacheRead <= t.prompt ==> ListQuota(t.(prompt := t.prompt + 1), card, cacheHint) - q == m)
            && (t.cacheRead < t.prompt ==>
                  ListQuota(t.(cacheRead := t.cacheRead + 1), card, cacheHint) - q == (RatioOr1(cacheHint) - 1.0) * m)
  {
    var c, k, m := OrOne(card.completionRatio), CacheRatio(cacheHint), card.modelRatio.value;
    assert c == CompletionRatioOf(card) && k == RatioOr1(cacheHint);
    TokenWeights(t, c, k);
    hide Weighted;
    var w := Weighted(t, c, k);
    Times(Weighted(t.(completion := t.completion + 1), c, k), w, m);
    Times(Weighted(t.(cacheCreation := t.cacheCreation + 1), c, k), w, m);
    Times(Weighted(t.(prompt := t.prompt + 1), c, k), w, m);
    Times(Weighted(t.(cacheRead := t.cacheRead + 1), c, k), w, m);
  }

  lemma Times(a: real, b: real, m: real)
    ensures a * m - b * m == (a - b) * m
  {
  }

  /** There is a list cost exactly if the card has a positive model ratio and, for a model that is paid by
      the call, a price; it is the price of the call, or of the tokens, in dollars, rounded. */
  lemma ListCostIff(t: Tokens, card: Option<Card>, cacheHint: Option<real>, quotaPerUnit: real)
    requires quotaPerUnit > 0.0
    ensures var cost := ListCost(t, card, cacheHint, quotaPerUnit);
            && (cost.Some? <==>
                  && card.Some? && card.value.modelRatio.Some? && card.value.modelRatio.value > 0.0
                  && (card.value.quotaType == 1.0 ==> card.value.modelPrice.Some? && card.value.modelPrice.value != 0.0))
            && (cost.Some? ==>
                  var exact := if card.value.quotaType == 1.0 then card.value.modelPrice.value
                               else ListQuota(t, card.value, cacheHint);
                  -HALF_STEP <= cost.value - exact / quotaPerUnit <= HALF_STEP)
  {
    if card.Some? && card.value.modelRatio.Some? {
      Round10Near(ListQuota(t, card.value, cacheHint) / quotaPerUnit);
      if card.value.modelPrice.Some? { Round10Near(card.value.modelPrice.value / quotaPerUnit); }
    }
  }

  /** A charge is red exactly if it exceeds what the displayed ratio makes of the list cost by more than
      the tolerance allows and by more than the allowance; without a list cost above 0 or a displayed
      ratio there is no verdict. */
  lemma RedIff(actual: real, listCost: real, displayed: Option<real>, tol: real, allowance: real)
    requires 0.0 <= tol
    ensures var verdict := Judge(actual, listCost, displayed, tol, allowance);
            && (verdict.NotRunnable? <==> listCost <= 0.0 || displayed.None?)
            && (verdict.Red? <==>
                  && listCost > 0.0 && displayed.Some?
                  && var excess := actual - listCost * displayed.value;
                     && excess > allowance
                     && excess > listCost * displayed.value * tol && excess > -(listCost * displayed.value) * tol)
  {
    if listCost > 0.0 && displayed.Some? {
      var e := listCost * displayed.value;
      Signs(e, tol);
    }
  }

  lemma Signs(e: real, tol: real)
    requires 0.0 <= tol
    ensures Abs(e) * tol == Max(e * tol, -e * tol)
  {
    if e < 0.0 {
      assert -e * tol >= 0.0;
    } else {
      assert e * tol >= 0.0;
    }
    assert -e * tol == -(e * tol);
  }

  // ---------------------------------------------------------------------------------------
  // An honest upstream is never flagged
  // ---------------------------------------------------------------------------------------

  /** How far an integer quota may lie above the exact charge. */
  function Slack(displayed: real, quotaPerUnit: real): real {
    0.5 - HALF_STEP * Abs(displayed) * quotaPerUnit
  }

  lemma Quotient(a: real, b: real, d: real)
    requires d > 0.0 && a <= b
    ensures a / d <= b / d
  {
  }

  /** Scaling down by the quota of one dollar keeps the excess within half a quota. */
  lemma ExcessInDollars(quota: real, exact: real, g: real, listCost: real, quotaPerUnit: real)
    requires quotaPerUnit > 0.0
    requires quota - exact * g <= Slack(g, quotaPerUnit)
    requires -HALF_STEP <= listCost - exact / quotaPerUnit <= HALF_STEP
    ensures quota / quotaPerUnit - listCost * g <= 0.5 / quotaPerUnit
  {
    var x := exact / quotaPerUnit;
    assert exact == x * quotaPerUnit;
    RoundedProduct(x, listCost, g);
    var q := quota / quotaPerUnit;
    assert quota == q * quotaPerUnit;
    var h := 0.5 / quotaPerUnit;
    assert 0.5 == h * quotaPerUnit;
    ScaleDown(q, x, g, h, quotaPerUnit);
  }

  lemma ScaleDown(q: real, x: real, g: real, h: real, d: real)
    requires d > 0.0
    requires q * d - x * d * g <= h * d - HALF_STEP * Abs(g) * d
    ensures q - x * g <= h - HALF_STEP * Abs(g)
  {
    var lhs, rhs := q - x * g, h - HALF_STEP * Abs(g);
    assert lhs * d == q * d - x * d * g;
    assert rhs * d == h * d - HALF_STEP * Abs(g) * d;
    if lhs > rhs {
      assert (lhs - rhs) * d > 0.0;
    }
  }

  lemma RoundedProduct(x: real, rounded: real, g: real)
    requires -HALF_STEP <= rounded - x <= HALF_STEP
    ensures x * g - rounded * g <= HALF_STEP * Abs(g)
  {
    var e := x - rounded;
    assert x * g - rounded * g == e * g;
    if g >= 0.0 {
      assert e * g <= HALF_STEP * g;
    } else {
      assert -e <= HALF_STEP;
      assert (-e) * (-g) <= HALF_STEP * (-g);
    }
  }

  /** If the charged quota exceeds weighted tokens x model ratio x displayed ratio by no more than
      half a quota less the rounding of the list cost, the verdict is not red, whatever the
      tolerance. */
  lemma HonestUpstreamNotFlagged(quota: nat, t: Tokens, card: Card, cacheHint: Option<real>, displayed: real,
                                 tol: real, quotaPerUnit: real)
    requires quotaPerUnit > 0.0 && Priced(Some(card)) && !PerCall(Some(card))
    requires quota as real - ListQuota(t, card, cacheHint) * displayed <= Slack(displayed, quotaPerUnit)
    ensures !JudgeQuota(quota, t, Some(card), cacheHint, Some(displayed), tol, quotaPerUnit).Red?
  {
    hide Round10, ListQuota, Slack, Band, Abs;
    var exact := ListQuota(t, card, cacheHint);
    var listCost := Round10(exact / quotaPerUnit);
    Round10Near(exact / quotaPerUnit);
    ExcessInDollars(quota as real, exact, displayed, listCost, quotaPerUnit);
    AllowanceInBand(Expected(listCost, displayed), tol, 0.5 / quotaPerUnit);
  }

  lemma AllowanceInBand(expected: real, tol: real, allowance: real)
    ensures allowance <= Band(expected, tol, allowance)
  {
  }

  /** Without the deduction the statement is false: the list cost is rounded down, and a charge
      rounded up by exactly half a quota is flagged at every tolerance up to 50 percent. */
  lemma HalfQuotaCanBeFlagged(tol: real)
    requires 0.0 <= tol <= 0.5
    ensures exists quota: nat, t: Tokens, card: Card, displayed: real ::
      && Priced(Some(card)) && !PerCall(Some(card))
      && quota as real - ListQuota(t, card, None) * displayed == 0.5
      && JudgeQuota(quota, t, Some(card), None, Some(displayed), tol, 500000.0).Red?
  {
    var t := Tokens(1, 0, 0, 0);
    var card := Card(Some(0.50002), 0.0, None, None);
    var displayed := 0.5 / 0.50002;
    assert Weighted(t, 1.0, 1.0) == 1.0;
    assert ListQuota(t, card, None) == 0.50002;
    assert 0.50002 * displayed == 0.5;
    var x := 0.50002 / 500000.0;
    assert x * SCALE == 10000.4;
    assert (10000.4).Floor == 10000;
    assert Round10(x) == 10000.0 / SCALE;
    var expected := Round10(x) * displayed;
    assert displayed < 1.0;
    assert 0.0 < expected < 0.000001;
    assert expected * tol <= 0.000001 by { assert expected * tol <= expected * 0.5; }
    assert 1.0 / 500000.0 - expected > 0.5 / 500000.0;
    assert JudgeQuota(1, t, Some(card), None, Some(displayed), tol, 500000.0).Red?;
  }

  // ---------------------------------------------------------------------------------------
  // Monotonicity
  // ---------------------------------------------------------------------------------------

  /** A higher charge never turns a red verdict clear. */
  lemma RedMonotoneInCharge(a: real, b: real, listCost: real, displayed: Option<real>, tol: real, allowance: real)
    requires a <= b && Judge(a, listCost, displayed, tol, allowance).Red?
    ensures Judge(b, listCost, displayed, tol, allowance).Red?
  {
  }

  lemma PositiveScale(m: real, low: real, high: real)
    requires 0.0 <= m && low <= high
    ensures low * m <= high * m
  {
  }

  lemma Complement(x: real, tol: real)
    ensures x * (1.0 - tol) == x - x * tol
  {
  }

  /** The least red charge grows with the expected one. */
  lemma BandGrows(x: real, y: real, tol: real, allowance: real)
    requires x <= y && 0.0 <= tol && (tol <= 1.0 || 0.0 <= x)
    ensures x + Band(x, tol, allowance) <= y + Band(y, tol, allowance)
  {
    var ax, ay := Abs(x) * tol, Abs(y) * tol;
    if 0.0 <= x {
      PositiveScale(tol, x, y);
      assert ax == x * tol && ay == y * tol;
    } else {
      PositiveScale(1.0 - tol, x, y);
      Complement(x, tol);
      Complement(y, tol);
      assert ax == -(x * tol);
      if y < 0.0 {
        assert ay == -(y * tol);
      } else {
        PositiveScale(tol, 0.0, y);
        PositiveScale(1.0 - tol, x, 0.0);
        assert ay == y * tol >= 0.0;
        assert x * (1.0 - tol) <= 0.0;
      }
    }
    assert x + ax <= y + ay;
  }

  lemma ExpectedGrows(listCost: real, low: real, high: real)
    requires 0.0 < listCost && low <= high
    ensures Expected(listCost, low) <= Expected(listCost, high)
    ensures 0.0 <= low ==> 0.0 <= Expected(listCost, low)
  {
    PositiveScale(listCost, low, high);
  }

  /** A higher displayed ratio never turns a clear verdict red, for every tolerance the settings
      allow; above 100 percent only if no ratio is negative. */
  lemma RedAntitoneInDisplayed(actual: real, listCost: real, low: real, high: real, tol: real, allowance: real)
    requires low <= high && 0.0 <= tol && (tol <= 1.0 || 0.0 <= low)
    requires Judge(actual, listCost, Some(high), tol, allowance).Red?
    ensures Judge(actual, listCost, Some(low), tol, allowance).Red?
  {
    hide Expected, Band;
    ExpectedGrows(listCost, low, high);
    BandGrows(Expected(listCost, low), Expected(listCost, high), tol, allowance);
  }

  /** At this tolerance a higher displayed ratio never turns a clear verdict red, negative ratios
      included. */
  ghost predicate Antitone(tol: real) {
    forall actual: real, listCost: real, low: real, high: real, allowance: real ::
      low <= high && Judge(actual, listCost, Some(high), tol, allowance).Red? ==>
        Judge(actual, listCost, Some(low), tol, allowance).Red?
  }

  /** That is so exactly up to 100 percent. */
  lemma RedAntitoneIff(tol: real)
    requires 0.0 <= tol
    ensures Antitone(tol) <==> tol <= 1.0
  {
    if tol <= 1.0 {
      forall actual: real, listCost: real, low: real, high: real, allowance: real
        | low <= high && Judge(actual, listCost, Some(high), tol, allowance).Red?
        ensures Judge(actual, listCost, Some(low), tol, allowance).Red?
      {
        RedAntitoneInDisplayed(actual, listCost, low, high, tol, allowance);
      }
    } else {
      var actual := (tol - 1.0) / 2.0;
      assert Judge(actual, 1.0, Some(0.0), tol, 0.0).Red?;
      assert !Judge(actual, 1.0, Some(-1.0), tol, 0.0).Red?;
    }
  }

  // ---------------------------------------------------------------------------------------
  // Cached input
  // ---------------------------------------------------------------------------------------

  /** Reading more of the prompt from the cache changes the weight by the discount on the tokens
      moved, so it raises the weight exactly if the cache ratio is above 1. */
  lemma CacheMoveWeight(t: Tokens, more: nat, completionRatio: real, cacheRatio: real)
    requires t.cacheRead <= more <= t.prompt
    ensures Weighted(t.(cacheRead := more), completionRatio, cacheRatio) - Weighted(t, completionRatio, cacheRatio)
      == (more - t.cacheRead) as real * (cacheRatio - 1.0)
  {
    var a, b, p := t.cacheRead as real, more as real, t.prompt as real;
    var rest := t.cacheCreation as real + t.completion as real * completionRatio;
    assert Weighted(t, completionRatio, cacheRatio) == p - a + a * cacheRatio + rest;
    assert Weighted(t.(cacheRead := more), completionRatio, cacheRatio) == p - b + b * cacheRatio + rest;
    assert (b - a) * (cacheRatio - 1.0) == b * cacheRatio - a * cacheRatio - b + a;
  }

  lemma CacheNeverHeavier(t: Tokens, more: nat, completionRatio: real, cacheRatio: real)
    requires t.cacheRead <= more && cacheRatio <= 1.0
    ensures Weighted(t.(cacheRead := more), completionRatio, cacheRatio) <= Weighted(t, completionRatio, cacheRatio)
  {
    var from := if t.cacheRead < t.prompt then t.cacheRead else t.prompt;
    var to := if more < t.prompt then more else t.prompt;
    CacheMoveWeight(t.(cacheRead := from), to, completionRatio, cacheRatio);
    assert t.(cacheRead := from).(cacheRead := to) == t.(cacheRead := to);
    Shrinks((to - from) as real, cacheRatio - 1.0);
  }

  lemma Shrinks(a: real, b: real)
    requires 0.0 <= a && b <= 0.0
    ensures a * b <= 0.0
  {
  }

  lemma ScaledOrder(a: real, b: real, m: real, d: real)
    requires a <= b && m > 0.0 && d > 0.0
    ensures a * m / d <= b * m / d
  {
    assert a * m <= b * m;
    Quotient(a * m, b * m, d);
  }

  /** Moving prompt tokens to cache reads at a ratio of at most 1 never raises the list cost. */
  lemma CacheNeverDearer(t: Tokens, more: nat, card: Card, cacheHint: Option<real>, quotaPerUnit: real)
    requires quotaPerUnit > 0.0 && Priced(Some(card)) && CacheRatio(cacheHint) <= 1.0
    requires t.cacheRead <= more
    requires ListCost(t, Some(card), cacheHint, quotaPerUnit).Some?
    ensures var after := ListCost(t.(cacheRead := more), Some(card), cacheHint, quotaPerUnit);
            after.Some? && after.value <= ListCost(t, Some(card), cacheHint, quotaPerUnit).value
  {
    hide Round10, Weighted;
    if !PerCall(Some(card)) {
      var c, k := OrOne(card.completionRatio), CacheRatio(cacheHint);
      CacheNeverHeavier(t, more, c, k);
      ScaledOrder(Weighted(t.(cacheRead := more), c, k), Weighted(t, c, k), card.modelRatio.value, quotaPerUnit);
      Round10Monotone(ListQuota(t.(cacheRead := more), card, cacheHint) / quotaPerUnit,
                      ListQuota(t, card, cacheHint) / quotaPerUnit);
    }
  }
}
